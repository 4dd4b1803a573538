/** The command handlers of main.py as a state machine. The state is the set of
    verified users (kept in memory) and the contents of the two ledger files;
    every command produces one reply and a new state. */
module Handlers {
  import opened Optional
  import opened PyText
  import opened FileLines
  import opened Ledger

  /** Telegram user IDs. */
  type UserId = int

  /** The five registered commands. Text that names no command reaches no handler. */
  datatype Command = Start | Ask | Unlock | Verify | GetFile

  datatype Reply =
    | Welcome                         // start's greeting
    | AskUsage                        // ask without a question
    | AskForwarded(question: string)  // the question goes to the chat-completion API
    | QrPhoto                         // the payment QR image with its caption
    | VerifyUsage                     // verify without a transaction ID
    | Verified
    | Invalid                         // not a valid ID, or already used: not told apart
    | NoReply                         // the handler raised (a ledger file could not be read)
    | SendFile                        // the gated download
    | Denied

  /** The fixed message text of each reply; empty for the replies whose content
      is not a fixed text (the API's answer, the document, no reply). */
  function Text(reply: Reply): string {
    match reply
    case Welcome => "\U{1F44B} Welcome! Use /ask to talk to AI, /unlock to pay via QR, /verify TXN_ID to verify payment, then /getfile to download."
    case AskUsage => "\U{26A0}\U{FE0F} Usage: /ask What is AI?"
    case AskForwarded(_) => ""
    case QrPhoto => "\U{1F4E5} Scan and pay using Paytm.\nThen use /verify <transaction_id>"
    case VerifyUsage => "\U{26A0}\U{FE0F} Usage: /verify TXN12345678"
    case Verified => "\U{2705} Verified! Use /getfile to download your notes."
    case Invalid => "\U{274C} Invalid or already used TXN ID."
    case NoReply => ""
    case SendFile => ""
    case Denied => "\U{274C} Please verify payment first using /unlock and /verify."
  }

  datatype State = State(verified: set<UserId>, txnFile: Option<string>, usedFile: Option<string>)

  /** The transaction ID `verify` reads from its arguments: joined with spaces, then stripped. */
  function Token(args: seq<string>): (t: string)
    ensures IsStripped(t)
  {
    Strip(Join(args))
  }

  /** The argument guard of `ask`: an empty question is answered with the usage
      text and nothing is sent out; otherwise the joined question, unstripped,
      is what would be forwarded. */
  function AskReply(args: seq<string>): (r: Reply)
    ensures r == AskUsage <==> |args| == 0 || (|args| == 1 && args[0] == [])
    ensures r != AskUsage ==> r.AskForwarded? && r.question != [] && r.question == Join(args)
  {
    var question := Join(args);
    if question == [] then AskUsage else AskForwarded(question)
  }

  /** `verify` called by `user` with `args`. */
  function VerifyStep(s: State, user: UserId, args: seq<string>): (res: (Reply, State))
    ensures res.1.txnFile == s.txnFile
    ensures res.0 == Verified <==> Token(args) != [] && IsTxnValid(s.txnFile, s.usedFile, Token(args)) == Some(true)
    ensures res.0 == VerifyUsage <==> Token(args) == []
    ensures res.0 == NoReply <==> Token(args) != [] && (s.txnFile == None || s.usedFile == None)
    ensures res.0 == Invalid <==> Token(args) != [] && IsTxnValid(s.txnFile, s.usedFile, Token(args)) == Some(false)
    ensures res.0 != Verified ==> res.1 == s
    ensures res.0 == Verified ==>
              res.1.verified == s.verified + {user}
              && res.1.usedFile == Some(s.usedFile.value + Token(args) + "\n")
  {
    var t := Token(args);
    if t == [] then (VerifyUsage, s)
    else
      match IsTxnValid(s.txnFile, s.usedFile, t)
      case None => (NoReply, s)
      case Some(false) => (Invalid, s)
      case Some(true) => (Verified, s.(verified := s.verified + {user}, usedFile := Some(MarkedUsed(s.usedFile, t))))
  }

  /** `getfile` called by `user`. */
  function GetFileReply(s: State, user: UserId): (r: Reply)
    ensures r == SendFile <==> user in s.verified
    ensures r == SendFile || r == Denied
  {
    if user in s.verified then SendFile else Denied
  }

  /** One command from one user. */
  function Step(s: State, cmd: Command, user: UserId, args: seq<string>): (res: (Reply, State))
    ensures res.1.txnFile == s.txnFile
    ensures res.1.verified == if cmd == Verify && res.0 == Verified then s.verified + {user} else s.verified
    ensures cmd != Verify ==> res.1 == s
    ensures res.1.usedFile == s.usedFile
            || (s.usedFile != None && res.1.usedFile != None
                && s.usedFile.value < res.1.usedFile.value && Terminated(res.1.usedFile.value))
  {
    match cmd
    case Start => (Welcome, s)
    case Ask => (AskReply(args), s)
    case Unlock => (QrPhoto, s)
    case Verify => VerifyStep(s, user, args)
    case GetFile => (GetFileReply(s, user), s)
  }

  datatype Event = Event(cmd: Command, user: UserId, args: seq<string>)

  /** The replies to a sequence of commands handled one after another, and the final state. */
  function Run(s: State, evs: seq<Event>): (res: (seq<Reply>, State))
    ensures |res.0| == |evs|
    ensures res.1.txnFile == s.txnFile
    ensures s.verified <= res.1.verified
    ensures s.usedFile != None ==> res.1.usedFile != None && s.usedFile.value <= res.1.usedFile.value
    decreases |evs|
  {
    if evs == [] then ([], s)
    else
      var first := Step(s, evs[0].cmd, evs[0].user, evs[0].args);
      var rest := Run(first.1, evs[1..]);
      ([first.0] + rest.0, rest.1)
  }

  /** The used-IDs file, if present, ends with a newline (or is empty). */
  predicate UsedTerminated(s: State) {
    s.usedFile == None || Terminated(s.usedFile.value)
  }

  /** `t` is recorded in a terminated used-IDs file. */
  predicate Spent(s: State, t: string) {
    s.usedFile != None && Terminated(s.usedFile.value) && Lists(s.usedFile.value, t)
  }
}
