/** Two runs of the bot class for any stripped IDs, with the single-step and
    file-listing facts they use. */
module Scenarios {
  import opened Optional
  import opened PyText
  import opened FileLines
  import opened Ledger
  import opened Handlers
  import opened Guarantees
  import opened App

  /** A single argument that is already stripped is its own token. */
  lemma WordToken(w: string)
    requires IsStripped(w)
    ensures Token([w]) == w
  {
    assert [] + w + [] == w;
    StripUnique([], w, []);
  }

  /** A file of two token lines lists exactly those two tokens. */
  lemma TwoLineFile(a: string, b: string, t: string)
    requires IsStripped(a) && IsStripped(b) && '\n' !in a && '\n' !in b
    ensures Lists(a + "\n" + b + "\n", t) <==> t == a || t == b
  {
    OneLine(b);
    StripLine(a);
    StripLine(b);
    AppendLine(a + "\n", b);
    OneLine(a);
    var ls := Lines(a + "\n" + b + "\n");
    assert ls == [a + "\n", b + "\n"];
    assert Strip(ls[0]) == a && Strip(ls[1]) == b;
  }

  /** An empty file lists no token. */
  lemma EmptyFileListsNothing(t: string)
    ensures !Lists("", t)
  {
    assert Lines("") == [];
  }

  /** `verify` of a single listed, unused word accepts it and appends it to the used-IDs file. */
  lemma AcceptsFresh(s: State, user: UserId, w: string)
    requires IsStripped(w) && w != []
    requires s.txnFile != None && s.usedFile != None
    requires Lists(s.txnFile.value, w) && !Lists(s.usedFile.value, w)
    ensures VerifyStep(s, user, [w])
            == (Verified, s.(verified := s.verified + {user}, usedFile := Some(s.usedFile.value + w + "\n")))
  {
    WordToken(w);
  }

  /** `verify` of a single word that the valid-IDs file does not list is refused. */
  lemma RefusesUnlisted(s: State, user: UserId, w: string)
    requires IsStripped(w) && w != []
    requires s.txnFile != None && s.usedFile != None
    requires !Lists(s.txnFile.value, w)
    ensures VerifyStep(s, user, [w]) == (Invalid, s)
  {
    WordToken(w);
  }

  /** Valid-IDs file listing `a` and `b`, no used IDs: `a` is accepted once and
      then refused for another user, an unlisted `c` is refused, and the file goes
      to the payer and not to the other user. */
  method LedgerScenario(a: string, b: string, c: string) returns (replies: seq<Reply>)
    requires IsStripped(a) && IsStripped(b) && IsStripped(c)
    requires a != [] && c != [] && '\n' !in a && '\n' !in b
    requires c != a && c != b
    ensures replies == [Verified, Invalid, Invalid, SendFile, Denied]
  {
    var txns := a + "\n" + b + "\n";
    var bot := new Bot(Some(txns), Some(""));
    TwoLineFile(a, b, a);
    TwoLineFile(a, b, c);
    EmptyFileListsNothing(a);
    ghost var s0 := bot.Snapshot();
    AcceptsFresh(s0, 1, a);
    var r1 := bot.Verify(1, [a]);
    ghost var s1 := bot.Snapshot();
    WordToken(a);
    assert s1 == State({1}, Some(txns), Some(MarkedUsed(Some(""), a)));
    MarkedIsSpent(txns, "", a);
    assert Spent(s1, Token([a]));
    SpentIsRefused(s1, 2, [a]);
    var r2 := bot.Verify(2, [a]);
    RefusesUnlisted(s1, 3, c);
    var r3 := bot.Verify(3, [c]);
    var r4 := bot.GetFile(1);
    var r5 := bot.GetFile(2);
    replies := [r1, r2, r3, r4, r5];
  }

  /** A file holding one stripped line and no newline lists that line only. */
  lemma BareLineFile(l: string, t: string)
    requires IsStripped(l) && l != [] && '\n' !in l
    ensures Lists(l, t) <==> t == l
  {
    WholeLine(l);
    StripUnique([], l, []);
    assert [] + l + [] == l;
    if Lists(l, t) {
      var i :| 0 <= i < |Lines(l)| && Strip(Lines(l)[i]) == t;
      assert i == 0;
    }
    if t == l {
      assert Strip(Lines(l)[0]) == t;
    }
  }

  /** A file holding one stripped line and its newline lists that line only. */
  lemma OneLineFile(l: string, t: string)
    requires IsStripped(l) && '\n' !in l
    ensures Lists(l + "\n", t) <==> t == l
  {
    OneLine(l);
    StripLine(l);
  }

  /** Two stripped, newline-free pieces written back to back form one such piece. */
  lemma RunTogether(last: string, t: string)
    requires IsStripped(last) && IsStripped(t) && last != [] && t != []
    requires '\n' !in last && '\n' !in t
    ensures IsStripped(last + t) && '\n' !in last + t
  {
    var j := last + t;
    assert j[0] == last[0] && j[|j| - 1] == t[|t| - 1];
  }

  /** If the used-IDs file holds a last line `last` with no newline after it, the
      token `t` that `verify` appends runs into that line, so neither is listed any
      more and the same transaction ID is accepted twice. */
  method UnterminatedUsedFileScenario(last: string, t: string) returns (replies: seq<Reply>)
    requires IsStripped(last) && IsStripped(t) && last != [] && t != []
    requires '\n' !in last && '\n' !in t && last != t
    requires '\r' !in last && '\r' !in t
    ensures replies == [Verified, Verified]
  {
    var bot := new Bot(Some(t + "\n"), Some(last));
    OneLineFile(t, t);
    BareLineFile(last, t);
    AcceptsFresh(bot.Snapshot(), 1, t);
    var r1 := bot.Verify(1, [t]);
    RunTogether(last, t);
    OneLineFile(last + t, t);
    assert |last + t| > |t|;
    assert last + t + "\n" == (last + t) + "\n";
    AcceptsFresh(bot.Snapshot(), 2, t);
    var r2 := bot.Verify(2, [t]);
    replies := [r1, r2];
  }
}
