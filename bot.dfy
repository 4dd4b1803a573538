/** The running bot of main.py: the module-level `verified_users` set, which
    `verify` updates in place, and the two ledger files as the process finds them
    on disk. Each handler is proved to act as its specification in `Handlers`. */
module App {
  import opened Optional
  import opened PyText
  import opened Ledger
  import opened Handlers
  import Guarantees

  class Bot {
    var verifiedUsers: set<UserId>
    var txnFile: Option<string>
    var usedFile: Option<string>

    /** The bot's state as a value. */
    function Snapshot(): State
      reads this
    {
      State(verifiedUsers, txnFile, usedFile)
    }

    /** A fresh process: nobody is verified; the files are whatever is on disk. */
    constructor (txnFile: Option<string>, usedFile: Option<string>)
      ensures Snapshot() == State({}, txnFile, usedFile)
    {
      verifiedUsers := {};
      this.txnFile := txnFile;
      this.usedFile := usedFile;
    }

    /** `mark_txn_used`: append the token and a newline to the used-IDs file;
        `None` is taken as a missing file, which append mode creates. */
    method MarkTxnUsed(t: string)
      modifies this`usedFile
      ensures usedFile == Some(MarkedUsed(old(usedFile), t))
    {
      var before := if usedFile == None then "" else usedFile.value;
      usedFile := Some(before + t + "\n");
    }

    /** `verify`: read the token; if it is valid and unused, record the caller as
        verified and mark the token used. */
    method Verify(user: UserId, args: seq<string>) returns (r: Reply)
      modifies this`verifiedUsers, this`usedFile
      ensures old(verifiedUsers) <= verifiedUsers
      ensures (r, Snapshot()) == VerifyStep(old(Snapshot()), user, args)
    {
      var t := Strip(Join(args));
      if t == [] {
        return VerifyUsage;
      }
      var valid := IsTxnValid(txnFile, usedFile, t);
      if valid == None {
        return NoReply;
      }
      if valid.value {
        verifiedUsers := verifiedUsers + {user};
        MarkTxnUsed(t);
        r := Verified;
      } else {
        r := Invalid;
      }
    }

    /** `getfile`: the download goes only to a caller who is verified. */
    method GetFile(user: UserId) returns (r: Reply)
      ensures r == GetFileReply(Snapshot(), user)
      ensures r == SendFile <==> user in verifiedUsers
      ensures r == SendFile || r == Denied
    {
      if user in verifiedUsers {
        r := SendFile;
      } else {
        r := Denied;
      }
    }

    /** One incoming command, routed to its handler. */
    method Handle(cmd: Command, user: UserId, args: seq<string>) returns (r: Reply)
      modifies this`verifiedUsers, this`usedFile
      ensures (r, Snapshot()) == Step(old(Snapshot()), cmd, user, args)
    {
      match cmd
      case Start => r := Welcome;
      case Ask => r := AskReply(args);
      case Unlock => r := QrPhoto;
      case Verify => r := Verify(user, args);
      case GetFile => r := GetFile(user);
    }
  }

  /** Two `verify` calls with the same token, one after the other on the same
      bot, cannot both succeed, whoever makes them. */
  method VerifyTwice(bot: Bot, u: UserId, v: UserId, args: seq<string>) returns (first: Reply, second: Reply)
    requires UsedTerminated(bot.Snapshot()) && '\n' !in Token(args)
    modifies bot
    ensures first == Verified ==> second == Invalid
  {
    ghost var s0 := bot.Snapshot();
    first := bot.Verify(u, args);
    ghost var s1 := bot.Snapshot();
    second := bot.Verify(v, args);
    if first == Verified {
      Guarantees.VerifiedSpends(s0, u, args);
      Guarantees.SpentIsRefused(s1, v, args);
    }
  }
}
