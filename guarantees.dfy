/** What the handlers of main.py guarantee when commands are handled one at a time. */
module Guarantees {
  import opened Optional
  import opened PyText
  import opened FileLines
  import opened Ledger
  import opened Handlers

  /** The token of `verify` is empty exactly when every argument is whitespace. */
  lemma TokenEmptyIff(args: seq<string>)
    ensures Token(args) == [] <==> forall i :: 0 <= i < |args| ==> AllSpace(args[i])
  {
    StripEmptyIff(Join(args));
    JoinAllSpace(args);
  }

  /** Arguments without newlines give a token without a newline. */
  lemma TokenHasNoNewline(args: seq<string>)
    requires forall i :: 0 <= i < |args| ==> '\n' !in args[i]
    ensures '\n' !in Token(args)
  {
    if '\n' in Token(args) {
      StripKeeps(Join(args), '\n');
      JoinKeeps(args, '\n');
    }
  }

  /** `verify` answers with the usage text exactly for blank arguments, and then
      changes neither the verified users nor the used-IDs file. */
  lemma BlankVerifyChangesNothing(s: State, user: UserId, args: seq<string>)
    ensures Step(s, Verify, user, args).0 == VerifyUsage
            <==> forall i :: 0 <= i < |args| ==> AllSpace(args[i])
    ensures Step(s, Verify, user, args).0 == VerifyUsage ==> Step(s, Verify, user, args).1 == s
  {
    TokenEmptyIff(args);
  }

  /** Every command leaves the lines of a terminated used-IDs file in place and
      adds at most one, the token line that `verify` wrote. */
  lemma UsedLinesOnlyGrow(s: State, cmd: Command, user: UserId, args: seq<string>)
    requires s.usedFile != None && Terminated(s.usedFile.value)
    requires '\n' !in Token(args)
    ensures Step(s, cmd, user, args).1.usedFile != None
    ensures Lines(Step(s, cmd, user, args).1.usedFile.value)
            == Lines(s.usedFile.value)
               + (if cmd == Verify && Step(s, cmd, user, args).0 == Verified then [Token(args) + "\n"] else [])
  {
    if cmd == Verify && Step(s, cmd, user, args).0 == Verified {
      AppendLine(s.usedFile.value, Token(args));
    } else {
      assert Lines(s.usedFile.value) + [] == Lines(s.usedFile.value);
    }
  }

  /** A spent token stays spent whatever command comes next. */
  lemma SpentStaysSpent(s: State, cmd: Command, user: UserId, args: seq<string>, t: string)
    requires Spent(s, t)
    ensures Spent(Step(s, cmd, user, args).1, t)
  {
    var s' := Step(s, cmd, user, args).1;
    if s'.usedFile != s.usedFile {
      StaysListed(s.usedFile.value, s'.usedFile.value, t);
    }
  }

  /** `verify` of a spent token is refused and changes nothing, whoever asks. */
  lemma SpentIsRefused(s: State, user: UserId, args: seq<string>)
    requires s.txnFile != None && Token(args) != [] && Spent(s, Token(args))
    ensures Step(s, Verify, user, args) == (Invalid, s)
  {
    assert IsTxnValid(s.txnFile, s.usedFile, Token(args)) == Some(false);
  }

  /** A user cannot tell an ID that was never valid from one already used: both
      get the same `Invalid` reply and the same message text, and neither
      changes the state. */
  lemma RefusalsLookAlike(s1: State, u1: UserId, a1: seq<string>, s2: State, u2: UserId, a2: seq<string>)
    requires s1.txnFile != None && s1.usedFile != None && Token(a1) != [] && !Lists(s1.txnFile.value, Token(a1))
    requires s2.txnFile != None && Token(a2) != [] && Spent(s2, Token(a2))
    ensures Step(s1, Verify, u1, a1) == (Invalid, s1) && Step(s2, Verify, u2, a2) == (Invalid, s2)
    ensures Text(Step(s1, Verify, u1, a1).0) == Text(Step(s2, Verify, u2, a2).0)
  {
    SpentIsRefused(s2, u2, a2);
  }

  /** A successful `verify` on a terminated used-IDs file spends its token. */
  lemma VerifiedSpends(s: State, user: UserId, args: seq<string>)
    requires UsedTerminated(s) && '\n' !in Token(args)
    requires Step(s, Verify, user, args).0 == Verified
    ensures Spent(Step(s, Verify, user, args).1, Token(args))
  {
    MarkedIsSpent(s.txnFile.value, s.usedFile.value, Token(args));
  }

  /** Replies of a run after its first command are those of the rest of the run,
      handled from the state the first command left. */
  lemma RunTail(s: State, evs: seq<Event>, j: nat)
    requires 0 < j < |evs|
    ensures Run(s, evs).0[j] == Run(Step(s, evs[0].cmd, evs[0].user, evs[0].args).1, evs[1..]).0[j - 1]
    ensures evs[1..][j - 1] == evs[j]
  {
  }

  /** Once a token is spent, every later `verify` of it in a run is refused. */
  lemma {:induction false} SpentRefusedInRun(s: State, evs: seq<Event>, t: string, j: nat)
    requires s.txnFile != None && t != [] && Spent(s, t)
    requires j < |evs| && evs[j].cmd == Verify && Token(evs[j].args) == t
    ensures Run(s, evs).0[j] == Invalid
    decreases j
  {
    var e := evs[0];
    if j == 0 {
      SpentIsRefused(s, e.user, e.args);
    } else {
      SpentStaysSpent(s, e.cmd, e.user, e.args, t);
      RunTail(s, evs, j);
      SpentRefusedInRun(Step(s, e.cmd, e.user, e.args).1, evs[1..], t, j - 1);
    }
  }

  /** No double spend: in sequential handling, once `verify` of a token has
      succeeded, any later `verify` of the same token, by any user, is refused.
      The used-IDs file must start out terminated, and the token newline-free
      (arguments split on whitespace never hold a newline). */
  lemma {:induction false} NoDoubleSpend(s: State, evs: seq<Event>, i: nat, j: nat)
    requires UsedTerminated(s)
    requires i < j < |evs|
    requires evs[i].cmd == Verify && evs[j].cmd == Verify
    requires Token(evs[i].args) == Token(evs[j].args) && '\n' !in Token(evs[i].args)
    requires Run(s, evs).0[i] == Verified
    ensures Run(s, evs).0[j] == Invalid
    decreases i
  {
    var e := evs[0];
    var s1 := Step(s, e.cmd, e.user, e.args).1;
    RunTail(s, evs, j);
    if i == 0 {
      VerifiedSpends(s, e.user, e.args);
      SpentRefusedInRun(s1, evs[1..], Token(e.args), j - 1);
    } else {
      RunTail(s, evs, i);
      NoDoubleSpend(s1, evs[1..], i - 1, j - 1);
    }
  }

  /** Some command before position `j` of the run was a successful `verify` by `u`. */
  predicate VerifiedBefore(s: State, evs: seq<Event>, u: UserId, j: nat)
    requires j <= |evs|
  {
    exists i :: 0 <= i < j && evs[i].cmd == Verify && evs[i].user == u && Run(s, evs).0[i] == Verified
  }

  lemma VerifiedBeforeShift(s: State, evs: seq<Event>, u: UserId, j: nat)
    requires 0 < j <= |evs|
    ensures VerifiedBefore(s, evs, u, j)
            <==> (evs[0].cmd == Verify && evs[0].user == u && Run(s, evs).0[0] == Verified)
                 || VerifiedBefore(Step(s, evs[0].cmd, evs[0].user, evs[0].args).1, evs[1..], u, j - 1)
  {
    var s1 := Step(s, evs[0].cmd, evs[0].user, evs[0].args).1;
    if VerifiedBefore(s, evs, u, j) {
      var i :| 0 <= i < j && evs[i].cmd == Verify && evs[i].user == u && Run(s, evs).0[i] == Verified;
      if i > 0 {
        RunTail(s, evs, i);
      }
    }
    if VerifiedBefore(s1, evs[1..], u, j - 1) {
      var i :| 0 <= i < j - 1 && evs[1..][i].cmd == Verify && evs[1..][i].user == u
               && Run(s1, evs[1..]).0[i] == Verified;
      RunTail(s, evs, i + 1);
    }
  }

  /** Per-user gating: `getfile` sends the file to a user exactly when that same
      user was verified at the start or has had a `verify` succeed earlier in the
      run; anyone else is denied, whoever else has paid. */
  lemma {:induction false} GetFileIsPerUser(s: State, evs: seq<Event>, j: nat)
    requires j < |evs| && evs[j].cmd == GetFile
    ensures Run(s, evs).0[j] == SendFile || Run(s, evs).0[j] == Denied
    ensures Run(s, evs).0[j] == SendFile <==> evs[j].user in s.verified || VerifiedBefore(s, evs, evs[j].user, j)
    decreases j
  {
    var e := evs[0];
    if j > 0 {
      var s1 := Step(s, e.cmd, e.user, e.args).1;
      RunTail(s, evs, j);
      GetFileIsPerUser(s1, evs[1..], j - 1);
      VerifiedBeforeShift(s, evs, evs[j].user, j);
    }
  }
}
