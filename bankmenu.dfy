/**
 * The Go Bank menu of the bank.go programs, as values: what one menu choice
 * does to the account, and how each version of the program strings rounds
 * together (stop at the first rejection, continue after it, or stop only on
 * the exit choice).
 *
 * Amounts are exact reals. Standard input is a sequence of commands: one per
 * menu round, the choice and the amount typed after it (the amount is only
 * read for a deposit or a withdrawal). Once input is exhausted fmt.Scan leaves
 * its variables at their zero values, so every further round reads choice 0.
 */
module BankMenu {
  import opened Common

  /** One menu round's input: the number typed at "Your choice: " and, for 2 and 3, the amount. */
  datatype Command = Command(choice: int, amount: real)

  /** What a round reads once standard input is exhausted. */
  const EndOfInput: Command := Command(0, 0.0)

  /** The command of round k. */
  function Input(cmds: seq<Command>, k: nat): (c: Command)
    ensures k < |cmds| ==> c == cmds[k]
    ensures k >= |cmds| ==> c == EndOfInput && c.choice == 0
  {
    if k < |cmds| then cmds[k] else EndOfInput
  }

  /** What the programs print, one event per message (prompts are not recorded). */
  datatype Event =
    | Welcome                 // "Welcome to Go Bank!"
    | Menu                    // "What do you want to do?" and the four options
    | BalanceIs(b: real)      // "Your balance is", b
    | Updated(b: real)        // "Balance updated! New amount:", b
    | MustBePositive          // "Invalid amount. Must be greater than 0."
    | CannotOverdraw          // "Invalid amount. You can't withdraw more than you have."
    | Goodbye                 // "Goodbye!"
    | Thanks                  // "Thanks for choosing our bank"
    | ChoiceEcho(c: int)      // "Your choice:", c
    | LoadError(msg: string)  // "ERROR", msg, "---------"
    | ReachUs(phone: string)  // "Reach us 24/7", phone

  /** The state a bank program carries: the balance, what it printed, and every value it wrote to balance.txt, oldest first. */
  datatype Session = Session(balance: real, events: seq<Event>, writes: seq<real>)

  /** How a validating version treats one command. */
  datatype Outcome = Shown | Deposited | Withdrawn | DepositRejected | WithdrawalNotPositive | Overdraft | OtherChoice

  /** The checks of choices 1 to 3: a deposit must be positive, a withdrawal positive and at most the balance. */
  function Classify(balance: real, c: Command): (o: Outcome)
    ensures o == Shown <==> c.choice == 1
    ensures o == Deposited <==> c.choice == 2 && c.amount > 0.0
    ensures o == DepositRejected <==> c.choice == 2 && c.amount <= 0.0
    ensures o == Withdrawn <==> c.choice == 3 && 0.0 < c.amount <= balance
    ensures o == WithdrawalNotPositive <==> c.choice == 3 && c.amount <= 0.0
    ensures o == Overdraft <==> c.choice == 3 && c.amount > 0.0 && c.amount > balance
    ensures o == OtherChoice <==> c.choice != 1 && c.choice != 2 && c.choice != 3
  {
    if c.choice == 1 then Shown
    else if c.choice == 2 then (if c.amount <= 0.0 then DepositRejected else Deposited)
    else if c.choice == 3 then
      (if c.amount <= 0.0 then WithdrawalNotPositive else if c.amount > balance then Overdraft else Withdrawn)
    else OtherChoice
  }

  predicate Accepted(o: Outcome) {
    o == Deposited || o == Withdrawn
  }

  predicate Rejected(o: Outcome) {
    o == DepositRejected || o == WithdrawalNotPositive || o == Overdraft
  }

  /** Withdrawing the whole balance is allowed and leaves 0. */
  lemma WithdrawAll(balance: real)
    requires balance > 0.0
    ensures Classify(balance, Command(3, balance)) == Withdrawn
  {
  }

  /** Once input is exhausted every round takes the exit branch. */
  lemma ExhaustedInputExits(cmds: seq<Command>, k: nat, balance: real)
    requires k >= |cmds|
    ensures Classify(balance, Input(cmds, k)) == OtherChoice
  {
  }

  /**
   * The response to one command in the validating versions: its message, the
   * balance change of an accepted deposit or withdrawal, and (when the version
   * persists) the new balance written to balance.txt. Rejections and choice 1
   * change neither balance nor file; any other choice prints "Goodbye!".
   */
  function Respond(s: Session, c: Command, persist: bool): (r: Session)
    ensures var o := Classify(s.balance, c);
            r.balance == s.balance + (if o == Deposited then c.amount else if o == Withdrawn then -c.amount else 0.0)
    ensures r.writes == s.writes + (if persist && Accepted(Classify(s.balance, c)) then [r.balance] else [])
    ensures |r.events| == |s.events| + 1 && r.events[..|s.events|] == s.events
    ensures s.balance >= 0.0 ==> r.balance >= 0.0
  {
    match Classify(s.balance, c)
    case Shown => s.(events := s.events + [BalanceIs(s.balance)])
    case Deposited =>
      var b := s.balance + c.amount;
      Session(b, s.events + [Updated(b)], s.writes + if persist then [b] else [])
    case Withdrawn =>
      var b := s.balance - c.amount;
      Session(b, s.events + [Updated(b)], s.writes + if persist then [b] else [])
    case DepositRejected => s.(events := s.events + [MustBePositive])
    case WithdrawalNotPositive => s.(events := s.events + [MustBePositive])
    case Overdraft => s.(events := s.events + [CannotOverdraw])
    case OtherChoice => s.(events := s.events + [Goodbye])
  }

  /** The message Respond prints for each outcome. */
  lemma RespondMessage(s: Session, c: Command, persist: bool)
    ensures var o := Classify(s.balance, c);
            var m := Last(Respond(s, c, persist).events);
            (o == Shown ==> m == BalanceIs(s.balance)) &&
            (Accepted(o) ==> m == Updated(Respond(s, c, persist).balance)) &&
            (o == DepositRejected || o == WithdrawalNotPositive ==> m == MustBePositive) &&
            (o == Overdraft ==> m == CannotOverdraw) &&
            (o == OtherChoice ==> m == Goodbye)
  {
  }

  /** Every value written is non-negative. */
  predicate NonNegativeWrites(writes: seq<real>) {
    forall i :: 0 <= i < |writes| ==> writes[i] >= 0.0
  }

  predicate NonNegative(s: Session) {
    s.balance >= 0.0 && NonNegativeWrites(s.writes)
  }

  lemma RespondKeepsNonNegative(s: Session, c: Command, persist: bool)
    requires NonNegative(s)
    ensures NonNegative(Respond(s, c, persist))
  {
    var r := Respond(s, c, persist);
    forall i | 0 <= i < |r.writes|
      ensures r.writes[i] >= 0.0
    {
      if i >= |s.writes| {
        assert r.writes[i] == r.balance;
      }
    }
  }

  // ---------------------------------------------------------------- 19: a counted loop that stops at the first rejection

  /** The number of menu rounds of 19-repeating-code-with-for. */
  const MaxRounds: nat := 200

  /**
   * Rounds i, i + 1, ... of 19-repeating-code-with-for: each prints the
   * welcome and the menu; a rejection ends the program; every other choice,
   * the exit included, goes on to the next round until round 200.
   */
  function Strict(s: Session, cmds: seq<Command>, i: nat): (r: Session)
    ensures s.events <= r.events && r.writes == s.writes
    decreases MaxRounds - i
  {
    if i >= MaxRounds then s
    else
      var c := Input(cmds, i);
      var r := Respond(s.(events := s.events + [Welcome, Menu]), c, false);
      if Rejected(Classify(s.balance, c)) then r else Strict(r, cmds, i + 1)
  }

  /** One round of 19-repeating-code-with-for: a rejection ends the run, anything else goes on to the next round. */
  lemma StrictStep(s: Session, cmds: seq<Command>, i: nat)
    requires i < MaxRounds
    ensures var next := Respond(s.(events := s.events + [Welcome, Menu]), Input(cmds, i), false);
            Strict(s, cmds, i) == if Rejected(Classify(s.balance, Input(cmds, i))) then next else Strict(next, cmds, i + 1)
  {
  }

  /**
   * Every round prints exactly three messages (welcome, menu, response), and
   * at most 200 - i rounds remain from round i.
   */
  lemma {:induction false} StrictRoundBound(s: Session, cmds: seq<Command>, i: nat)
    requires i <= MaxRounds
    ensures (|Strict(s, cmds, i).events| - |s.events|) % 3 == 0
    ensures |Strict(s, cmds, i).events| <= |s.events| + 3 * (MaxRounds - i)
    decreases MaxRounds - i
  {
    if i < MaxRounds {
      var c := Input(cmds, i);
      var r := Respond(s.(events := s.events + [Welcome, Menu]), c, false);
      if !Rejected(Classify(s.balance, c)) {
        StrictRoundBound(r, cmds, i + 1);
      }
    }
  }

  /** 19-repeating-code-with-for never writes, and a non-negative balance stays non-negative. */
  lemma {:induction false} StrictNonNegative(s: Session, cmds: seq<Command>, i: nat)
    requires s.balance >= 0.0
    ensures Strict(s, cmds, i).balance >= 0.0
    ensures Strict(s, cmds, i).writes == s.writes
    decreases MaxRounds - i
  {
    if i < MaxRounds {
      var c := Input(cmds, i);
      var r := Respond(s.(events := s.events + [Welcome, Menu]), c, false);
      if !Rejected(Classify(s.balance, c)) {
        StrictNonNegative(r, cmds, i + 1);
      }
    }
  }

  /** The exit choice does not leave the loop: a run of 4s prints "Goodbye!" every round and the balance is carried on. */
  lemma ExitDoesNotStop(s: Session, cmds: seq<Command>, i: nat)
    requires i < MaxRounds
    requires Input(cmds, i).choice == 4
    ensures Strict(s, cmds, i) == Strict(Session(s.balance, s.events + [Welcome, Menu, Goodbye], s.writes), cmds, i + 1)
  {
    assert s.events + [Welcome, Menu] + [Goodbye] == s.events + [Welcome, Menu, Goodbye];
  }

  // ---------------------------------------------------------------- 20: break on exit, return on a bad withdrawal

  /**
   * Rounds k, k + 1, ... of 20-infinite-loop-break-continue: a rejected
   * deposit continues, a rejected withdrawal returns at once, and any other
   * choice breaks out of the loop, after which the thanks line is printed.
   */
  function Mixed(s: Session, cmds: seq<Command>, k: nat): (r: Session)
    ensures s.events <= r.events && r.writes == s.writes
    decreases |cmds| - k
  {
    var c := Input(cmds, k);
    var r := Respond(s.(events := s.events + [Menu]), c, false);
    match Classify(s.balance, c)
    case WithdrawalNotPositive => r
    case Overdraft => r
    case OtherChoice => r.(events := r.events + [Thanks])
    case _ => Mixed(r, cmds, k + 1)
  }

  /**
   * 20-infinite-loop-break-continue ends either with "Goodbye!" and the thanks
   * line (the exit choice) or with a withdrawal rejection and no thanks line.
   */
  lemma {:induction false} MixedEnding(s: Session, cmds: seq<Command>, k: nat)
    ensures var e := Mixed(s, cmds, k).events;
            |e| >= |s.events| + 2 &&
            (e[|e| - 2..] == [Goodbye, Thanks] || Last(e) == MustBePositive || Last(e) == CannotOverdraw)
    decreases |cmds| - k
  {
    var c := Input(cmds, k);
    var r := Respond(s.(events := s.events + [Menu]), c, false);
    var o := Classify(s.balance, c);
    RespondMessage(s.(events := s.events + [Menu]), c, false);
    if o == OtherChoice {
      var e := r.events + [Thanks];
      assert e[|e| - 2..] == [Last(r.events), Thanks];
    } else if o != WithdrawalNotPositive && o != Overdraft {
      MixedEnding(r, cmds, k + 1);
    }
  }

  lemma {:induction false} MixedNonNegative(s: Session, cmds: seq<Command>, k: nat)
    requires s.balance >= 0.0
    ensures Mixed(s, cmds, k).balance >= 0.0
    ensures Mixed(s, cmds, k).writes == s.writes
    decreases |cmds| - k
  {
    var c := Input(cmds, k);
    var r := Respond(s.(events := s.events + [Menu]), c, false);
    var o := Classify(s.balance, c);
    if o != WithdrawalNotPositive && o != Overdraft && o != OtherChoice {
      MixedNonNegative(r, cmds, k + 1);
    }
  }

  // ---------------------------------------------------------------- 21 onwards: continue on rejection, return on exit

  /**
   * Rounds k, k + 1, ... of the switch-based versions (21-switch to
   * 04-third-party-packages): rejections continue with the next round, and any
   * choice other than 1 to 3 prints the goodbye and thanks lines and returns.
   * `persist` says whether accepted operations write the balance.
   */
  function Lenient(s: Session, cmds: seq<Command>, k: nat, persist: bool): (r: Session)
    ensures s.events <= r.events && s.writes <= r.writes
    decreases |cmds| - k
  {
    var c := Input(cmds, k);
    var r := Respond(s.(events := s.events + [Menu]), c, persist);
    if Classify(s.balance, c) == OtherChoice then r.(events := r.events + [Thanks])
    else Lenient(r, cmds, k + 1, persist)
  }

  /** A non-negative balance, and every value written, stays non-negative. */
  lemma {:induction false} LenientNonNegative(s: Session, cmds: seq<Command>, k: nat, persist: bool)
    requires NonNegative(s)
    ensures NonNegative(Lenient(s, cmds, k, persist))
    decreases |cmds| - k
  {
    var c := Input(cmds, k);
    var shown := s.(events := s.events + [Menu]);
    RespondKeepsNonNegative(shown, c, persist);
    if Classify(s.balance, c) != OtherChoice {
      LenientNonNegative(Respond(shown, c, persist), cmds, k + 1, persist);
    }
  }

  /**
   * In the persisting versions balance.txt always holds the balance in memory
   * once anything was written; if nothing was written the balance is the one
   * the run started with. The others write nothing.
   */
  lemma {:induction false} LenientFileTracksBalance(s: Session, cmds: seq<Command>, k: nat, persist: bool)
    ensures var r := Lenient(s, cmds, k, persist);
            s.writes <= r.writes &&
            (persist && r.writes == s.writes ==> r.balance == s.balance) &&
            (r.writes != s.writes ==> Last(r.writes) == r.balance) &&
            (!persist ==> r.writes == s.writes)
    decreases |cmds| - k
  {
    var c := Input(cmds, k);
    var shown := s.(events := s.events + [Menu]);
    var r1 := Respond(shown, c, persist);
    if Classify(s.balance, c) != OtherChoice {
      LenientFileTracksBalance(r1, cmds, k + 1, persist);
      var r := Lenient(r1, cmds, k + 1, persist);
      if r.writes == s.writes {
        assert |s.writes| <= |r1.writes| <= |r.writes|;
        assert r1.writes == s.writes;
      }
    }
  }

  /** Every run of the switch-based versions ends with "Goodbye!" and the thanks line, and keeps what was printed before. */
  lemma {:induction false} LenientEnding(s: Session, cmds: seq<Command>, k: nat, persist: bool)
    ensures var e := Lenient(s, cmds, k, persist).events;
            |e| >= |s.events| + 3 && e[..|s.events|] == s.events && e[|e| - 2..] == [Goodbye, Thanks]
    decreases |cmds| - k
  {
    var c := Input(cmds, k);
    var shown := s.(events := s.events + [Menu]);
    var r := Respond(shown, c, persist);
    RespondMessage(shown, c, persist);
    if Classify(s.balance, c) == OtherChoice {
      var e := r.events + [Thanks];
      assert e[|e| - 2..] == [Last(r.events), Thanks];
      assert e[..|s.events|] == r.events[..|shown.events|][..|s.events|];
    } else {
      LenientEnding(r, cmds, k + 1, persist);
      var e := Lenient(r, cmds, k + 1, persist).events;
      assert e[..|s.events|] == e[..|r.events|][..|shown.events|][..|s.events|];
    }
  }

  /** A rejected command is skipped: the balance and the file are as if only its message had been printed. */
  lemma RejectedIsSkipped(s: Session, cmds: seq<Command>, k: nat, persist: bool)
    requires Rejected(Classify(s.balance, Input(cmds, k)))
    ensures var shown := s.(events := s.events + [Menu]);
            var r := Respond(shown, Input(cmds, k), persist);
            Lenient(s, cmds, k, persist) == Lenient(r, cmds, k + 1, persist) &&
            r.balance == s.balance && r.writes == s.writes
  {
  }
}
