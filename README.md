# Paid-notes Telegram bot: payment verification

`main.py` is a Telegram bot that sells a file of notes. A user pays through a QR
code (`/unlock`) and then sends the payment's transaction ID (`/verify TXN_ID`).
The bot accepts the ID when it is listed in `txn_ids.txt` and not yet listed in
`used_ids.txt`. It then adds the user to the in-memory set `verified_users` and
appends the ID to `used_ids.txt`. `/getfile` sends `enotes.zip` only to users
in that set. `/ask` forwards a question to a chat-completion API; only its
empty-question guard is modelled here.

The model has these parts:

- `PyText`: Python's `str.strip` (with the full `str.isspace` character set) and
  `" ".join`.
- `FileLines`: a text file as `for line in f` sees it. Every line keeps its
  terminating newline, and a last piece without one is a line too.
- `Ledger`: the two ledger files, held as their raw text. A file that cannot be
  opened or read (missing, unreadable, not valid text) is `None`. `IsTxnValid`
  is `is_txn_valid`, and `MarkedUsed` is what `mark_txn_used` leaves in the
  used-IDs file.
- `Handlers`: the command handlers as a pure state machine (`Step`, `Run`). The
  state is the verified set plus the two files' contents.
- `App.Bot`: a class whose fields are `verified_users` and the two files. Its
  methods update those fields in place. `Verify`, `GetFile` and `Handle` are
  proved to act as their `Handlers` specifications (`VerifyStep`,
  `GetFileReply`, `Step`), and `MarkTxnUsed` as `Ledger.MarkedUsed`.
- `Guarantees`: what sequential handling promises. A token is never accepted
  twice. A spent token stays spent. `getfile` is gated per user. A blank
  `verify` changes nothing.
- `Scenarios`: two runs of the class for any stripped IDs, with the
  single-step and file-listing facts they use.

Two points shape the contracts:

- **The used-IDs file must start out terminated.** `mark_txn_used` writes
  `txn_id + "\n"` at the end of `used_ids.txt`. If the file as deployed does not
  end with a newline, the first appended ID merges with the last line, and
  unless that line is blank the ID is not read back as used. So the
  no-double-spend lemmas require that the file is empty or ends in a newline
  (`UsedTerminated`).
  `Scenarios.UnterminatedUsedFileScenario` shows the same ID being accepted twice
  when this does not hold. The bot's own appends always leave the file
  terminated.
- **The token must not contain a newline.** Telegram splits command arguments on
  whitespace, so they never do. The lemmas state this as a precondition. The
  same split also keeps '\r' out of tokens, which matters because reading in
  text mode ends a line at a lone '\r' too (see "Left out").

A ledger file that cannot be opened or read makes `is_txn_valid` raise. The
model represents that as the reply `NoReply` with no change of state.

## Model

| member | source | states |
|---|---|---|
| PyText.Strip | main.py:61 | the stripped text has no leading or trailing whitespace and is no longer than the input |
| PyText.TrimLeftIsSuffix | main.py:86 | left-stripping drops an all-whitespace prefix and keeps a suffix that starts with a non-space |
| PyText.TrimRightIsPrefix | main.py:86 | right-stripping drops an all-whitespace suffix and keeps a prefix that ends with a non-space |
| PyText.StripIsMiddle | main.py:61 | `strip()` returns a contiguous slice of its input |
| PyText.StripUnique | main.py:88 | whitespace, then a stripped text, then whitespace, strips to exactly that text |
| PyText.StripIdempotent | main.py:61 | stripping twice is the same as stripping once |
| PyText.StripLine | main.py:86-88 | a stripped token followed by its newline strips back to the token |
| PyText.StripEmptyIff | main.py:61-63 | `strip()` gives the empty string exactly when the input is all whitespace |
| PyText.StripKeeps | main.py:61 | every character of the stripped text occurs in the input |
| PyText.Join | main.py:30-31 | `" ".join(args)` is empty exactly when there are no arguments or a single empty one |
| PyText.JoinAllSpace | main.py:61 | the joined text is all whitespace exactly when every argument is |
| PyText.JoinKeeps | main.py:61 | a non-space character of the joined text comes from one of the arguments |
| FileLines.FirstLineLength | main.py:86 | the first line runs up to and including the first newline, or to the end of the text |
| FileLines.Lines | main.py:86-88 | every line is non-empty and holds a newline only at its end; every line but the last ends with a newline, and so does the last when the file is terminated |
| FileLines.LinesUnfold | main.py:86 | a non-empty file reads as its first line followed by the lines of the rest |
| FileLines.LinesConcat | main.py:86-88 | the lines put back together give the file contents again |
| FileLines.FirstLineLengthAt | main.py:86 | the first line ends at the first newline |
| FileLines.LinesAppend | main.py:92-93 | appending to a terminated file keeps its lines and adds the appended text's lines after them |
| FileLines.LinesOfExtension | main.py:87-88 | a file that extends a terminated file has that file's lines as a prefix of its own |
| FileLines.OneLine | main.py:93 | a newline-free token followed by a newline is read back as exactly one line |
| FileLines.WholeLine | main.py:86 | text without any newline is read as a single line |
| FileLines.AppendLine | main.py:91-93 | writing `token + "\n"` to a terminated file adds exactly that line and leaves the file terminated |
| Ledger.StrippedLines | main.py:86 | `set(line.strip() for line in f)` holds exactly the tokens that some line of the file strips to |
| Ledger.IsTxnValid | main.py:84-89 | no answer exactly when either file cannot be read; otherwise true iff some line of the valid file strips to the token and no line of the used file does |
| Ledger.MarkedUsed | main.py:91-93 | after `mark_txn_used(t)` the used file is its old contents (nothing for a missing file) followed by `t` and a newline: the old contents are a prefix, and the file ends with `t + "\n"` |
| Ledger.StaysListed | main.py:91-93 | appending to a terminated used file never removes a token from its stripped lines |
| Ledger.ListedAfterMark | main.py:91-93 | after `mark_txn_used(t)` on a terminated file, the file lists `t` and is still terminated |
| Ledger.ListsAfterAppend | main.py:86-93 | after `mark_txn_used(t)` on a terminated file, the stripped used IDs are the old ones plus `t`, and no others |
| Ledger.MarkTwiceSameSet | main.py:86-93 | marking a token a second time leaves the set of stripped used IDs as it was after the first mark |
| Ledger.MarkedIsSpent | main.py:84-93 | after `mark_txn_used(t)`, `is_txn_valid(t)` is false whatever the valid-IDs file holds |
| Handlers.AskReply | main.py:29-33 | the usage text exactly when the joined question is empty; otherwise the joined question, non-empty, is what gets forwarded |
| Handlers.Token | main.py:61 | the `verify` token is stripped |
| Handlers.VerifyStep | main.py:59-72 | the usage reply iff the token is blank; no reply iff the token is non-blank and a ledger file cannot be read; `Invalid` iff the token is non-blank and `is_txn_valid` is false; accepted iff the token is non-blank and valid, which adds the caller to the verified set and appends the token line; every outcome other than acceptance leaves the state unchanged |
| Handlers.GetFileReply | main.py:75-81 | the file is sent iff the caller is in the verified set; otherwise the reply is the refusal |
| Handlers.Text | main.py:25-81 | the fixed message each reply sends, code point for code point (no contract; `Guarantees.RefusalsLookAlike` states what depends on it) |
| Handlers.Step | main.py:112-116 | the valid-IDs file never changes; only a successful `verify` grows the verified set, by its caller; the used file only grows, stays terminated, and changes only under `verify` |
| Handlers.Run | main.py:100 | consecutive `process_update` calls: one reply per command; the verified set and the used-IDs file only grow over a run |
| Guarantees.TokenEmptyIff | main.py:61-63 | the `verify` token is empty exactly when every argument is whitespace |
| Guarantees.TokenHasNoNewline | main.py:61 | newline-free arguments give a newline-free token |
| Guarantees.BlankVerifyChangesNothing | main.py:63-65 | `verify` replies with its usage text exactly for blank arguments, and then changes no state |
| Guarantees.UsedLinesOnlyGrow | main.py:67-69 | each command keeps the used file's lines and adds only the accepted token's line |
| Guarantees.SpentStaysSpent | main.py:91-93 | a token recorded in a terminated used file stays recorded after any command |
| Guarantees.SpentIsRefused | main.py:67-72 | `verify` of a spent token replies invalid and changes nothing, whoever asks |
| Guarantees.RefusalsLookAlike | main.py:71-72 | a never-valid ID and an already-used ID get the same `Invalid` reply and the same message, and neither changes the state |
| Guarantees.VerifiedSpends | main.py:67-69 | a successful `verify` on a terminated used file records its token as spent |
| Guarantees.RunTail | main.py:100 | the replies after a run's first command are those of the rest of the run, handled from the state that command left |
| Guarantees.SpentRefusedInRun | main.py:67-72 | once a token is spent, every later `verify` of it in a run is refused |
| Guarantees.NoDoubleSpend | main.py:59-72 | in sequential handling, after one successful `verify` of a token, every later `verify` of that token by any user is refused |
| Guarantees.VerifiedBeforeShift | main.py:68 | a successful `verify` by a user before position j is either the first command or one earlier in the rest of the run |
| Guarantees.GetFileIsPerUser | main.py:75-81 | `getfile` sends the file iff the caller was verified at the start or had a successful `verify` earlier in the run; otherwise it is denied |
| App.Bot.constructor | main.py:20 | a new process starts with an empty verified set and the files as found on disk |
| App.Bot.MarkTxnUsed | main.py:91-93 | the used file becomes its old contents, or nothing for a missing file, followed by the token and a newline |
| App.Bot.Verify | main.py:59-72 | the reply and new state are those of `Handlers.VerifyStep`; the verified set only grows |
| App.Bot.GetFile | main.py:75-81 | the reply is `Handlers.GetFileReply` of the current state: sends the file iff the caller is in the verified set; otherwise denies |
| App.Bot.Handle | main.py:112-116 | each command is routed to its handler, with the reply and new state of `Handlers.Step` |
| App.VerifyTwice | main.py:59-72 | on one bot with a terminated used file, two `verify` calls with the same token never both succeed |
| Scenarios.WordToken | main.py:61 | a single stripped argument is its own token |
| Scenarios.TwoLineFile | main.py:84-86 | a file holding two token lines lists exactly those two tokens |
| Scenarios.EmptyFileListsNothing | main.py:87-88 | an empty used file lists no token |
| Scenarios.AcceptsFresh | main.py:67-70 | a listed, unused single-word token is accepted and appended to the used file |
| Scenarios.RefusesUnlisted | main.py:71-72 | a token absent from the valid-IDs file is refused |
| Scenarios.LedgerScenario | main.py:59-81 | with ledger `a`, `b`: `a` is accepted once and then refused for another user, an unlisted `c` is refused, and only the payer gets the file |
| Scenarios.BareLineFile | main.py:87-88 | a file of one stripped line with no newline lists only that line |
| Scenarios.OneLineFile | main.py:85-86 | a file of one stripped line and its newline lists only that line |
| Scenarios.RunTogether | main.py:93 | a token appended right after an unterminated last line forms one newline-free, stripped line with it |
| Scenarios.UnterminatedUsedFileScenario | main.py:87-93 | when the used file ends in a non-blank line without a newline (and neither that line nor the ID holds a '\r'), the same ID is accepted twice |

## Left out

- Guarantees.NoDoubleSpend: holds only for a used-IDs file that starts out empty or newline-terminated, and for a newline-free token. `Scenarios.UnterminatedUsedFileScenario` shows the first condition is needed. It carries over to main.py only for tokens without '\r' as well, because the model splits lines only at '\n'. Telegram's whitespace split of the arguments guarantees both.
- The FastAPI webhook and health-check endpoints and the startup `set_webhook` call (main.py:95-109) are transport only. The model takes commands as already-parsed events and handles them one after another, as consecutive `process_update` calls (main.py:100).
- Parallel handling of updates (for example several server processes sharing the ledger files) is not modelled. Two concurrent `verify` calls could both pass `is_txn_valid` before either appends, and the model handles commands one at a time.
- The chat-completion HTTP call in `ask` (main.py:35-51) is network I/O. Only its empty-question guard is modelled; a non-empty question is the reply `AskForwarded`, whose text (the API's answer) is not modelled.
- Environment variables and `.env` loading (main.py:8-15) and the bot and dispatcher construction (main.py:17-19) are configuration, not behaviour.
- Reading `qr.jpg` and `enotes.zip` (main.py:55-56, 78-79) is modelled only as the replies `QrPhoto` and `SendFile`. Failure to open them is not modelled.
- Telegram's argument splitting is not modelled. `args` is any sequence of strings.
- Python's universal-newline translation is not modelled. Reading in text mode turns "\r\n" and a lone "\r" into "\n"; the model splits only at "\n". Because `strip()` removes "\r", a "\r\n" ending reads the same either way. A lone "\r" inside a line does not: a token such as "a\rb" is written as one line but read back as the two lines "a" and "b", so main.py would accept it again, while `Ledger.ListedAfterMark` holds for it in the model. Such tokens cannot come from Telegram's whitespace-split arguments.
- Changes to either ledger file between commands by anything other than the bot (an operator adding IDs to `txn_ids.txt`, an outside edit of `used_ids.txt`) are not modelled. main.py re-reads both files on every `verify` (main.py:85-88), so such a change takes effect from the next command. `Handlers.Step` keeps the valid-IDs file fixed and changes the used-IDs file only by the bot's own appends. `Handlers.Run`, `Guarantees.SpentRefusedInRun`, `Guarantees.NoDoubleSpend` and `App.VerifyTwice` hold only while nothing else writes those files.
- Ledger.MarkTwiceSameSet: marking the same ID twice is a no-op only for the set of stripped used IDs, not for the file, which gets a second copy of the line.
- A failing write in `mark_txn_used` is not modelled. After `verified_users.add` such a failure would leave the user verified while the ID stays unused.
- Persistence across restarts is left out. `verified_users` lives in memory, so a new process starts it empty (`App.Bot.constructor`), while the files are whatever is on disk.
