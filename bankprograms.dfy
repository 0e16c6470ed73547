/**
 * The main functions of the bank.go programs, each in its source's form: a
 * balance variable updated in place by a single pass or by a menu loop, with
 * continue, break and return where the program has them. Each is proved to
 * compute the corresponding function of BankMenu; the balance loaders of the
 * file-reading versions are functions of what the file read returned.
 */
module BankPrograms {
  import opened Common
  import opened BankMenu

  const InitialBalance: real := 1000.0
  const BalanceFile: string := "balance.txt"
  const MissingFileMsg: string := "Failed to find balance file."
  const ParseFailedMsg: string := "Failed to parse stored balance value."

  /**
   * 15-working-with-else-if: one pass and no validation. A deposit of any
   * amount, zero and negative included, is added; every choice but 1 and 2
   * (3 included) leaves the balance alone; the choice is echoed at the end.
   */
  function ElseIf(c: Command): (r: Session)
    ensures r.writes == [] && |r.events| >= 3 && r.events[..2] == [Welcome, Menu] && Last(r.events) == ChoiceEcho(c.choice)
    ensures c.choice != 2 ==> r.balance == InitialBalance
  {
    var message := if c.choice == 1 then [BalanceIs(InitialBalance)]
                   else if c.choice == 2 then [Updated(InitialBalance + c.amount)] else [];
    Session(if c.choice == 2 then InitialBalance + c.amount else InitialBalance,
            [Welcome, Menu] + message + [ChoiceEcho(c.choice)], [])
  }

  method ElseIfBank(c: Command) returns (s: Session)
    ensures s == ElseIf(c)
  {
    var accountBalance := InitialBalance;
    var events := [Welcome, Menu];
    if c.choice == 1 {
      events := events + [BalanceIs(accountBalance)];
    } else if c.choice == 2 {
      accountBalance := accountBalance + c.amount;
      events := events + [Updated(accountBalance)];
    }
    events := events + [ChoiceEcho(c.choice)];
    s := Session(accountBalance, events, []);
  }

  /**
   * 15-working-with-else-if against the validating 18-nested-if: they agree on
   * a balance check and a positive deposit; 15 applies a non-positive deposit
   * that 18 refuses, and ignores a withdrawal that 18 performs.
   */
  lemma ElseIfVersusNestedIf(c: Command)
    ensures var v15 := ElseIf(c);
            var v18 := Respond(Session(InitialBalance, [Welcome, Menu], []), c, false);
            (c.choice == 1 || (c.choice == 2 && c.amount > 0.0) ==> v15.balance == v18.balance && v15.events[..3] == v18.events) &&
            (c.choice == 2 && c.amount <= 0.0 ==> v15.balance == InitialBalance + c.amount <= v18.balance == InitialBalance) &&
            (c.choice == 3 ==> v15.balance == InitialBalance && v15.events[2] == ChoiceEcho(3)) &&
            (c.choice == 3 && 0.0 < c.amount <= InitialBalance ==> v18.balance == InitialBalance - c.amount)
  {
    var v15 := ElseIf(c);
    var v18 := Respond(Session(InitialBalance, [Welcome, Menu], []), c, false);
    if c.choice == 1 || (c.choice == 2 && c.amount > 0.0) {
      assert v15.events[..3] == v18.events;
    }
  }

  /**
   * The nested if-else chain that 18-nested-if runs once and each round of
   * 19-repeating-code-with-for runs again: what it prints after the menu, the
   * new balance, and whether the branch taken returns from main.
   */
  method Round(accountBalance: real, events: seq<Event>, c: Command) returns (balance: real, printed: seq<Event>, returned: bool)
    ensures Session(balance, printed, []) == Respond(Session(accountBalance, events, []), c, false)
    ensures returned == Rejected(Classify(accountBalance, c))
  {
    balance, printed, returned := accountBalance, events, false;
    if c.choice == 1 {
      printed := printed + [BalanceIs(balance)];
    } else if c.choice == 2 {
      if c.amount <= 0.0 {
        printed := printed + [MustBePositive];
        returned := true;
        return;
      }
      balance := balance + c.amount;
      printed := printed + [Updated(balance)];
    } else if c.choice == 3 {
      if c.amount <= 0.0 {
        printed := printed + [MustBePositive];
        returned := true;
        return;
      }
      if c.amount > balance {
        printed := printed + [CannotOverdraw];
        returned := true;
        return;
      }
      balance := balance - c.amount;
      printed := printed + [Updated(balance)];
    } else {
      printed := printed + [Goodbye];
    }
  }

  /** 18-nested-if: exactly one validated operation, then the program ends. */
  method NestedIfBank(c: Command) returns (s: Session)
    ensures s == Respond(Session(InitialBalance, [Welcome, Menu], []), c, false)
  {
    var accountBalance, events, _ := Round(InitialBalance, [Welcome, Menu], c);
    s := Session(accountBalance, events, []);
  }

  /** 18-nested-if starts from 1000 and can never leave a negative balance; withdrawing all of it leaves 0. */
  lemma NestedIfBankBalance(c: Command)
    ensures Respond(Session(InitialBalance, [Welcome, Menu], []), c, false).balance >= 0.0
    ensures c == Command(3, InitialBalance) ==> Respond(Session(InitialBalance, [Welcome, Menu], []), c, false).balance == 0.0
  {
  }

  /** 19-repeating-code-with-for: 200 rounds at most; a rejected amount returns from main. */
  method RepeatingBank(cmds: seq<Command>) returns (s: Session)
    ensures s == Strict(Session(InitialBalance, [], []), cmds, 0)
  {
    var accountBalance := InitialBalance;
    var events: seq<Event> := [];
    for i := 0 to MaxRounds
      invariant Strict(Session(InitialBalance, [], []), cmds, 0) == Strict(Session(accountBalance, events, []), cmds, i)
    {
      StrictStep(Session(accountBalance, events, []), cmds, i);
      events := events + [Welcome, Menu];
      var returned;
      accountBalance, events, returned := Round(accountBalance, events, Input(cmds, i));
      if returned {
        return Session(accountBalance, events, []);
      }
    }
    s := Session(accountBalance, events, []);
  }

  /** 20-infinite-loop-break-continue: a bad deposit continues, a bad withdrawal returns, the exit choice breaks. */
  method BreakContinueBank(cmds: seq<Command>) returns (s: Session)
    ensures s == Mixed(Session(InitialBalance, [Welcome], []), cmds, 0)
  {
    var accountBalance := InitialBalance;
    var events := [Welcome];
    var k := 0;
    while true
      invariant 0 <= k <= |cmds|
      invariant Mixed(Session(InitialBalance, [Welcome], []), cmds, 0) == Mixed(Session(accountBalance, events, []), cmds, k)
      decreases |cmds| - k
    {
      ghost var next := Respond(Session(accountBalance, events + [Menu], []), Input(cmds, k), false);
      ghost var o := Classify(accountBalance, Input(cmds, k));
      assert Mixed(Session(accountBalance, events, []), cmds, k)
          == if o == WithdrawalNotPositive || o == Overdraft then next
             else if o == OtherChoice then next.(events := next.events + [Thanks])
             else Mixed(next, cmds, k + 1);
      events := events + [Menu];
      var c := Input(cmds, k);
      if c.choice == 1 {
        events := events + [BalanceIs(accountBalance)];
      } else if c.choice == 2 {
        if c.amount <= 0.0 {
          events := events + [MustBePositive];
          assert Session(accountBalance, events, []) == next;
          k := k + 1;
          continue;
        }
        accountBalance := accountBalance + c.amount;
        events := events + [Updated(accountBalance)];
      } else if c.choice == 3 {
        if c.amount <= 0.0 {
          events := events + [MustBePositive];
          assert Session(accountBalance, events, []) == next;
          return Session(accountBalance, events, []);
        }
        if c.amount > accountBalance {
          events := events + [CannotOverdraw];
          assert Session(accountBalance, events, []) == next;
          return Session(accountBalance, events, []);
        }
        accountBalance := accountBalance - c.amount;
        events := events + [Updated(accountBalance)];
      } else {
        events := events + [Goodbye];
        assert Session(accountBalance, events, []) == next;
        break;
      }
      assert Session(accountBalance, events, []) == next;
      k := k + 1;
    }
    events := events + [Thanks];
    s := Session(accountBalance, events, []);
  }

  /**
   * The switch-based menu loop shared by 21-switch and every later version,
   * from the state main reached before the loop. When `persist` is set, each
   * accepted operation writes the new balance (writeBalanceToFile, or
   * fileops.WriteFloatToFile); its error, if any, is ignored.
   */
  method MenuLoop(start: Session, cmds: seq<Command>, persist: bool) returns (s: Session)
    ensures s == Lenient(start, cmds, 0, persist)
  {
    var accountBalance, events, writes := start.balance, start.events, start.writes;
    var k := 0;
    while true
      invariant 0 <= k <= |cmds|
      invariant Lenient(start, cmds, 0, persist) == Lenient(Session(accountBalance, events, writes), cmds, k, persist)
      decreases |cmds| - k
    {
      ghost var next := Respond(Session(accountBalance, events + [Menu], writes), Input(cmds, k), persist);
      assert Classify(accountBalance, Input(cmds, k)) != OtherChoice ==>
             Lenient(Session(accountBalance, events, writes), cmds, k, persist) == Lenient(next, cmds, k + 1, persist);
      events := events + [Menu];
      var c := Input(cmds, k);
      if c.choice == 1 {
        events := events + [BalanceIs(accountBalance)];
      } else if c.choice == 2 {
        if c.amount <= 0.0 {
          events := events + [MustBePositive];
          assert Session(accountBalance, events, writes) == next;
          k := k + 1;
          continue;
        }
        accountBalance := accountBalance + c.amount;
        events := events + [Updated(accountBalance)];
        if persist {
          writes := writes + [accountBalance];
        } else {
          assert writes + [] == writes;
        }
      } else if c.choice == 3 {
        if c.amount <= 0.0 {
          events := events + [MustBePositive];
          assert Session(accountBalance, events, writes) == next;
          k := k + 1;
          continue;
        }
        if c.amount > accountBalance {
          events := events + [CannotOverdraw];
          assert Session(accountBalance, events, writes) == next;
          k := k + 1;
          continue;
        }
        accountBalance := accountBalance - c.amount;
        events := events + [Updated(accountBalance)];
        if persist {
          writes := writes + [accountBalance];
        } else {
          assert writes + [] == writes;
        }
      } else {
        events := events + [Goodbye, Thanks];
        return Session(accountBalance, events, writes);
      }
      assert Session(accountBalance, events, writes) == next;
      k := k + 1;
    }
  }

  /** 21-switch: starts from 1000 and never touches a file. */
  method SwitchBank(cmds: seq<Command>) returns (s: Session)
    ensures s == Lenient(Session(InitialBalance, [Welcome], []), cmds, 0, false)
    ensures s.balance >= 0.0 && s.writes == []
  {
    s := MenuLoop(Session(InitialBalance, [Welcome], []), cmds, false);
    LenientNonNegative(Session(InitialBalance, [Welcome], []), cmds, 0, false);
    LenientFileTracksBalance(Session(InitialBalance, [Welcome], []), cmds, 0, false);
  }

  /** 22-writing-to-files: starts from 1000 (the file is never read) and writes after every accepted operation. */
  method WritingBank(cmds: seq<Command>) returns (s: Session)
    ensures s == Lenient(Session(InitialBalance, [Welcome], []), cmds, 0, true)
    ensures s.balance >= 0.0 && NonNegativeWrites(s.writes)
    ensures s.writes != [] ==> Last(s.writes) == s.balance
  {
    s := MenuLoop(Session(InitialBalance, [Welcome], []), cmds, true);
    LenientNonNegative(Session(InitialBalance, [Welcome], []), cmds, 0, true);
    LenientFileTracksBalance(Session(InitialBalance, [Welcome], []), cmds, 0, true);
  }

  // ---------------------------------------------------------------- loading the balance

  /** What os.ReadFile("balance.txt") returned: an error, or the file's text. */
  datatype FileRead = ReadFailed | Contents(text: string)

  /**
   * strconv.ParseFloat(text, 64), given as `parse` on non-empty text; the
   * empty text always fails to parse.
   */
  function ParseFloat(parse: string -> Option<real>, text: string): (r: Option<real>)
    ensures text == "" ==> r == None
    ensures text != "" ==> r == parse(text)
  {
    if text == "" then None else parse(text)
  }

  /**
   * getBalanceFromFile of 23-reading-from-files: both errors are ignored. A
   * failed read leaves no data, whose text "" does not parse, and a failed
   * parse yields 0.
   */
  function LoadIgnoringErrors(file: FileRead, parse: string -> Option<real>): (b: real)
    ensures file.ReadFailed? ==> b == 0.0
    ensures file.Contents? && ParseFloat(parse, file.text).None? ==> b == 0.0
    ensures file.Contents? && ParseFloat(parse, file.text).Some? ==> b == ParseFloat(parse, file.text).value
  {
    var text := if file.Contents? then file.text else "";
    match ParseFloat(parse, text)
    case None => 0.0
    case Some(v) => v
  }

  /**
   * getBalanceFromFile of 24-handling-errors and 02-splitting-code-across-files:
   * a failed read or parse falls back to 1000 with its own message.
   */
  function LoadWithFallback(file: FileRead, parse: string -> Option<real>): (r: (real, Option<string>))
    ensures file.ReadFailed? ==> r == (InitialBalance, Some(MissingFileMsg))
    ensures file.Contents? && ParseFloat(parse, file.text).None? ==> r == (InitialBalance, Some(ParseFailedMsg))
    ensures file.Contents? && ParseFloat(parse, file.text).Some? ==> r == (ParseFloat(parse, file.text).value, None)
    ensures r.1.None? <==> file.Contents? && ParseFloat(parse, file.text).Some?
  {
    if file.ReadFailed? then (InitialBalance, Some(MissingFileMsg))
    else
      match ParseFloat(parse, file.text)
      case None => (InitialBalance, Some(ParseFailedMsg))
      case Some(v) => (v, None)
  }

  /** The two loaders agree whenever the file parses; they differ only in what a failure falls back to. */
  lemma LoadersAgreeOnGoodFiles(file: FileRead, parse: string -> Option<real>)
    ensures LoadWithFallback(file, parse).1.None? ==> LoadWithFallback(file, parse).0 == LoadIgnoringErrors(file, parse)
    ensures LoadWithFallback(file, parse).1.Some? ==> LoadWithFallback(file, parse).0 == InitialBalance && LoadIgnoringErrors(file, parse) == 0.0
  {
  }

  /** The printed load error, if there was one: the program goes on with the balance it was given. */
  function LoadReport(err: Option<string>): (events: seq<Event>)
    ensures err.None? ==> events == []
    ensures err.Some? ==> events == [LoadError(err.value)]
  {
    if err.Some? then [LoadError(err.value)] else []
  }

  /** 23-reading-from-files: start from the stored balance (or 0) and write after every accepted operation. */
  method ReadingBank(file: FileRead, parse: string -> Option<real>, cmds: seq<Command>) returns (s: Session)
    ensures s == Lenient(Session(LoadIgnoringErrors(file, parse), [Welcome], []), cmds, 0, true)
  {
    var accountBalance := LoadIgnoringErrors(file, parse);
    s := MenuLoop(Session(accountBalance, [Welcome], []), cmds, true);
  }

  /** 24-handling-errors and 02-splitting-code-across-files: a load error is printed and is not fatal. */
  method HandlingErrorsBank(file: FileRead, parse: string -> Option<real>, cmds: seq<Command>) returns (s: Session)
    ensures var (b, err) := LoadWithFallback(file, parse);
            s == Lenient(Session(b, LoadReport(err) + [Welcome], []), cmds, 0, true)
  {
    var accountBalance, err := LoadWithFallback(file, parse).0, LoadWithFallback(file, parse).1;
    var events: seq<Event> := [];
    if err.Some? {
      events := events + [LoadError(err.value)];
    }
    assert events == LoadReport(err);
    s := MenuLoop(Session(accountBalance, events + [Welcome], []), cmds, true);
  }

  /**
   * 03-exporting-importing: the balance and error come from
   * fileops.GetFloatFromFile (not part of this model), given as `loaded`; an
   * error is printed and not fatal.
   */
  method FileopsBank(loaded: (real, Option<string>), cmds: seq<Command>) returns (s: Session)
    ensures s == Lenient(Session(loaded.0, LoadReport(loaded.1) + [Welcome], []), cmds, 0, true)
  {
    var events: seq<Event> := [];
    if loaded.1.Some? {
      events := events + [LoadError(loaded.1.value)];
    }
    assert events == LoadReport(loaded.1);
    s := MenuLoop(Session(loaded.0, events + [Welcome], []), cmds, true);
  }

  /** 04-third-party-packages: as 03-exporting-importing, with a phone number from randomdata.PhoneNumber after the welcome. */
  method ThirdPartyBank(loaded: (real, Option<string>), phone: string, cmds: seq<Command>) returns (s: Session)
    ensures s == Lenient(Session(loaded.0, LoadReport(loaded.1) + [Welcome, ReachUs(phone)], []), cmds, 0, true)
  {
    var events: seq<Event> := [];
    if loaded.1.Some? {
      events := events + [LoadError(loaded.1.value)];
    }
    assert events == LoadReport(loaded.1);
    s := MenuLoop(Session(loaded.0, events + [Welcome, ReachUs(phone)], []), cmds, true);
  }

  /**
   * In the versions that load the balance, a non-negative loaded balance
   * stays non-negative; the file then holds the final balance once anything
   * was written.
   */
  lemma LoadedRunInvariants(b: real, before: seq<Event>, cmds: seq<Command>)
    requires b >= 0.0
    ensures var s := Lenient(Session(b, before, []), cmds, 0, true);
            s.balance >= 0.0 && NonNegativeWrites(s.writes) &&
            (s.writes != [] ==> Last(s.writes) == s.balance) &&
            (s.writes == [] ==> s.balance == b)
  {
    LenientNonNegative(Session(b, before, []), cmds, 0, true);
    LenientFileTracksBalance(Session(b, before, []), cmds, 0, true);
  }
}
