/** The transaction ledger of main.py: the valid-IDs file `txn_ids.txt`, which the
    bot only reads, and the used-IDs file `used_ids.txt`, to which it only appends.
    A file that cannot be opened or read (missing, unreadable, not valid text) is `None`. */
module Ledger {
  import opened Optional
  import opened PyText
  import opened FileLines

  /** `set(line.strip() for line in f)` over a file with contents `text`. */
  function StrippedLines(text: string): (r: set<string>)
    ensures forall t :: t in r <==> Lists(text, t)
  {
    set l | l in Lines(text) :: Strip(l)
  }

  /** Some line of `text`, stripped, is `t`. */
  predicate Lists(text: string, t: string) {
    exists i :: 0 <= i < |Lines(text)| && Strip(Lines(text)[i]) == t
  }

  /** `is_txn_valid(t)`. Opening or reading either file raises when it cannot
      be read; that outcome is `None`. */
  function IsTxnValid(txnFile: Option<string>, usedFile: Option<string>, t: string): (r: Option<bool>)
    ensures r == None <==> txnFile == None || usedFile == None
    ensures r != None ==> (r.value <==> Lists(txnFile.value, t) && !Lists(usedFile.value, t))
  {
    if txnFile == None || usedFile == None then None
    else Some(t in StrippedLines(txnFile.value) && t !in StrippedLines(usedFile.value))
  }

  /** Contents of the used-IDs file after `mark_txn_used(t)`. Append mode
      creates a missing file; `None` here stands for a missing file only (a file
      that exists but cannot be read keeps its bytes, which this does not model;
      `verify` appends only after both files were read). */
  function MarkedUsed(usedFile: Option<string>, t: string): (r: string)
    ensures usedFile != None ==> usedFile.value <= r
    ensures |r| == (if usedFile == None then 0 else |usedFile.value|) + |t| + 1
    ensures r[|r| - |t| - 1..] == t + "\n"
  {
    (if usedFile == None then "" else usedFile.value) + t + "\n"
  }

  /** Appending to a terminated file never takes a token off the list. */
  lemma StaysListed(text: string, text': string, t: string)
    requires Terminated(text) && text <= text' && Lists(text, t)
    ensures Lists(text', t)
  {
    LinesOfExtension(text, text');
    var i :| 0 <= i < |Lines(text)| && Strip(Lines(text)[i]) == t;
    assert Lines(text')[i] == Lines(text)[i];
  }

  /** The line `mark_txn_used(t)` writes strips back to `t`. */
  lemma ListedAfterMark(used: string, t: string)
    requires Terminated(used) && IsStripped(t) && '\n' !in t
    ensures Lists(used + t + "\n", t)
    ensures Terminated(used + t + "\n")
  {
    AppendLine(used, t);
    StripLine(t);
    var ls := Lines(used + t + "\n");
    assert Strip(ls[|ls| - 1]) == t;
  }

  /** After `mark_txn_used(t)` on a terminated file, `is_txn_valid(t)` is false
      whatever the valid file holds. */
  lemma MarkedIsSpent(txnFile: string, used: string, t: string)
    requires Terminated(used) && IsStripped(t) && '\n' !in t
    ensures Lists(MarkedUsed(Some(used), t), t)
    ensures Terminated(MarkedUsed(Some(used), t))
    ensures IsTxnValid(Some(txnFile), Some(MarkedUsed(Some(used), t)), t) == Some(false)
  {
    ListedAfterMark(used, t);
  }

  /** Appending a token line to a terminated file lists exactly the tokens it
      listed before, and the appended one. */
  lemma ListsAfterAppend(text: string, t: string, x: string)
    requires Terminated(text) && IsStripped(t) && '\n' !in t
    ensures Lists(text + t + "\n", x) <==> Lists(text, x) || x == t
  {
    AppendLine(text, t);
    StripLine(t);
    var l1, l2 := Lines(text), Lines(text + t + "\n");
    assert l2 == l1 + [t + "\n"];
    if Lists(text + t + "\n", x) {
      var i :| 0 <= i < |l2| && Strip(l2[i]) == x;
      if i < |l1| {
        assert l2[i] == l1[i];
      }
    }
    if Lists(text, x) {
      var i :| 0 <= i < |l1| && Strip(l1[i]) == x;
      assert l2[i] == l1[i];
    }
    if x == t {
      assert Strip(l2[|l1|]) == x;
    }
  }

  /** Marking a token a second time adds a second copy of its line to the file,
      but leaves the set of stripped lines as it was after the first mark. */
  lemma MarkTwiceSameSet(used: string, t: string, x: string)
    requires Terminated(used) && IsStripped(t) && '\n' !in t
    ensures Lists(MarkedUsed(Some(MarkedUsed(Some(used), t)), t), x) <==> Lists(MarkedUsed(Some(used), t), x)
  {
    var once := used + t + "\n";
    assert MarkedUsed(Some(used), t) == once;
    assert MarkedUsed(Some(once), t) == once + t + "\n";
    AppendLine(used, t);
    ListsAfterAppend(used, t, x);
    ListsAfterAppend(once, t, x);
  }
}
