/**
 Concrete sessions: a two-network listing, the two connect outcomes, a full
 walk from start to connection, and a refresh that shrinks the list under the
 marker.
 */
module Scenarios {
  import opened Listing
  import opened Navigation
  import opened Connector
  import opened Controller

  const Header: string := "HEADER"
  const LineOne: string := "AA:BB SSID_ONE more cols"
  const LineTwo: string := "CC:DD SSID_TWO"
  /** "HEADER\nAA:BB SSID_ONE more cols\nCC:DD SSID_TWO\n" */
  const TwoNetworks: string := Header + "\n" + LineOne + "\n" + LineTwo + "\n"

  /** Two lines, each followed by a newline. */
  lemma UnlinesTwo(a: string, b: string)
    ensures Unlines([a, b]) == a + "\n" + b + "\n"
  {
    assert Unlines([]) == "";
    UnlinesCons(b, []);
    assert [b] + [] == [b];
    UnlinesCons(a, [b]);
    assert [a] + [b] == [a, b];
  }

  /** The lines of `header + "\n" + a + "\n" + b + "\n"` after the header. */
  lemma TwoDataLines(header: string, a: string, b: string)
    requires '\n' !in header && '\n' !in a && '\n' !in b
    ensures DataLines(header + "\n" + a + "\n" + b + "\n") == [a, b]
  {
    UnlinesTwo(a, b);
    assert header + "\n" + a + "\n" + b + "\n" == header + "\n" + Unlines([a, b]);
    DataLinesOfUnlines(header, [a, b]);
  }

  /** The identifiers of a two-line listing are the tokens of its two lines. */
  lemma TwoSsids(header: string, a: string, b: string, ta: string, tb: string)
    requires '\n' !in header && '\n' !in a && '\n' !in b
    requires IsSsidField(a, ta) && IsSsidField(b, tb)
    ensures Parsable(header + "\n" + a + "\n" + b + "\n")
    ensures GetSsids(header + "\n" + a + "\n" + b + "\n") == [ta, tb]
  {
    var text := header + "\n" + a + "\n" + b + "\n";
    TwoDataLines(header, a, b);
    var ssids := GetSsids(text);
    SsidFieldUnique(a, ssids[0], ta);
    SsidFieldUnique(b, ssids[1], tb);
  }

  /** Column 8 falls two characters into the second field, so the identifiers
      read are "ID_ONE" and "ID_TWO": the first eight characters are dropped
      whatever they are. */
  lemma TwoNetworksSsids()
    ensures Parsable(TwoNetworks)
    ensures GetSsids(TwoNetworks) == ["ID_ONE", "ID_TWO"]
  {
    assert LineOne[SsidColumn..] == "ID_ONE more cols";
    assert IsSsidField(LineOne, "ID_ONE");
    assert LineTwo[SsidColumn..] == "ID_TWO";
    assert IsSsidField(LineTwo, "ID_TWO");
    TwoSsids(Header, LineOne, LineTwo, "ID_ONE", "ID_TWO");
  }

  /** A connect command that exits successfully reports its standard output;
      one that fails reports its standard error. */
  lemma ConnectOutcomes()
    ensures Authenticate("NET", "pw", _ => Exited(true, "Connected.\n", "")) == Ok("Connected.\n")
    ensures Authenticate("NET", "pw", _ => Exited(false, "", "Secrets were required.\n"))
            == Err(Command("Secrets were required.\n"))
    ensures Authenticate("NET", "pw", _ => LaunchFailed) == Err(Program)
  {
  }

  /** `nmcli` accepting only one network and password. */
  function Accepting(ssid: string, pwd: string): seq<string> -> ProcessResult
  {
    args => if args == ConnectArgs(ssid, pwd) then Exited(true, "Connected.\n", "")
            else Exited(false, "", "Secrets were required.\n")
  }

  /** Pressing `k` while `list` is what a refresh returns and `nmcli` is `nmcli`. */
  function Press(k: Key, list: string, nmcli: seq<string> -> ProcessResult): Input
  {
    Input(Got(KeyPress(k)), Listed(list), nmcli)
  }

  /** Pressing the characters of `word` one by one. */
  function Presses(word: string, list: string, nmcli: seq<string> -> ProcessResult): seq<Input>
  {
    seq(|word|, i requires 0 <= i < |word| => Press(Char(word[i]), list, nmcli))
  }

  /** Pressing the characters of `word` one by one types `word`. */
  lemma {:induction false} TypedWord(word: string, list: string, nmcli: seq<string> -> ProcessResult)
    ensures Typed(Presses(word, list, nmcli)) == word
    decreases |word|
  {
    var presses := Presses(word, list, nmcli);
    if |word| > 0 {
      TypedWord(word[1..], list, nmcli);
      assert presses[1..] == Presses(word[1..], list, nmcli);
      assert word == [word[0]] + word[1..];
    }
  }

  /** The inputs of the walk: Down, Enter, the password, Enter, then the connect iteration. */
  function WalkInputs(list: string, pwd: string, nmcli: seq<string> -> ProcessResult): seq<Input>
  {
    [Press(Down, list, nmcli), Press(Char('\n'), list, nmcli)]
    + Presses(pwd, list, nmcli)
    + [Press(Char('\n'), list, nmcli), Input(NoEvent, Listed(list), nmcli)]
  }

  /** The first two iterations of the walk: Down moves to the second entry,
      Enter captures its identifier. */
  lemma WalkSelects(list: string, nmcli: seq<string> -> ProcessResult)
    requires Parsable(list) && DataCount(list) == 2
    ensures Run(Start(Listed(list)), [Press(Down, list, nmcli), Press(Char('\n'), list, nmcli)]).last
            == Session(Password, 1, list, GetSsids(list)[1], "")
  {
    var down := Press(Down, list, nmcli);
    var enter := Press(Char('\n'), list, nmcli);
    var s0 := Start(Listed(list));
    assert MatchEvt(down.read.evt, list, 0) == Moved(Continue, 1);
    var s1 := Step(s0, down).next;
    assert s1 == s0.(pos := 1);
    assert MatchEvt(enter.read.evt, list, 1) == Moved(Select, 1);
    var s2 := Step(s1, enter).next;
    assert s2 == Session(Password, 1, list, GetSsids(list)[1], "");
    assert [down, enter][1..] == [enter];
    assert [enter][1..] == [];
    assert Run(s1, [enter]).last == Run(s2, []).last == s2;
  }

  /** On any listing of two parsable networks: Down, Enter on the second entry,
      type a password, Enter; the next iteration runs `authenticate` once with
      the second identifier and that password, and the loop ends with its result. */
  lemma WalkOnTwoNetworks(list: string, pwd: string, nmcli: seq<string> -> ProcessResult)
    requires Parsable(list) && DataCount(list) == 2
    requires '\n' !in pwd
    ensures
      var ssid := GetSsids(list)[1];
      var o := Run(Start(Listed(list)), WalkInputs(list, pwd, nmcli));
      && o.last.phase == Done(Finished(Authenticate(ssid, pwd, nmcli)))
      && o.trace[|pwd| + 3] == Authenticated(ConnectArgs(ssid, pwd))
      && AuthCount(o.trace) == 1
  {
    var select := [Press(Down, list, nmcli), Press(Char('\n'), list, nmcli)];
    var typing := Presses(pwd, list, nmcli);
    var confirm := [Press(Char('\n'), list, nmcli), Input(NoEvent, Listed(list), nmcli)];
    var s0 := Start(Listed(list));
    WalkSelects(list, nmcli);
    var s2 := Session(Password, 1, list, GetSsids(list)[1], "");
    assert forall i :: 0 <= i < |typing| ==> KeepsTyping(typing[i]) by {
      forall i | 0 <= i < |typing|
        ensures KeepsTyping(typing[i])
      {
        assert pwd[i] in pwd;
      }
    }
    PasswordIsTypedText(s2, typing);
    TypedWord(pwd, list, nmcli);
    assert "" + pwd == pwd;
    var s9 := s2.(pwd := pwd);
    assert Run(s2, typing).last == s9;
    ConfirmConnectsOnce(s9, confirm);
    RunAppend(s0, select, typing);
    RunAppend(s0, select + typing, confirm);
    assert WalkInputs(list, pwd, nmcli) == select + typing + confirm;
  }

  /** The walk on the two-network listing connects to "ID_TWO". */
  lemma WalkToConnection()
    ensures
      var o := Run(Start(Listed(TwoNetworks)), WalkInputs(TwoNetworks, "hunter2", Accepting("ID_TWO", "hunter2")));
      && o.last.phase == Done(Finished(Ok("Connected.\n")))
      && o.trace[10] == Authenticated(ConnectArgs("ID_TWO", "hunter2"))
  {
    TwoNetworksSsids();
    var nmcli := Accepting("ID_TWO", "hunter2");
    assert GetSsids(TwoNetworks)[1] == "ID_TWO";
    WalkOnTwoNetworks(TwoNetworks, "hunter2", nmcli);
    assert nmcli(ConnectArgs("ID_TWO", "hunter2")) == Exited(true, "Connected.\n", "");
  }

  /** "HEADER\nCC:DD SSID_TWO\n" */
  const OneNetwork: string := Header + "\n" + LineTwo + "\n"

  /** The line of `header + "\n" + a + "\n"` after the header. */
  lemma OneDataLine(header: string, a: string)
    requires '\n' !in header && '\n' !in a
    ensures DataLines(header + "\n" + a + "\n") == [a]
  {
    assert Unlines([]) == "";
    UnlinesCons(a, []);
    assert [a] + [] == [a];
    assert header + "\n" + a + "\n" == header + "\n" + Unlines([a]);
    DataLinesOfUnlines(header, [a]);
  }

  /** The one-network listing has one data line. */
  lemma OneNetworkLine()
    ensures DataLines(OneNetwork) == [LineTwo]
  {
    OneDataLine(Header, LineTwo);
  }

  /** On any listing of two parsable networks with the second highlighted, `r`
      refreshing to a listing of one network followed by Enter panics. */
  lemma ShrinkFromTwoToOnePanics(two: string, one: string, nmcli: seq<string> -> ProcessResult)
    requires Parsable(two) && DataCount(two) == 2
    requires DataCount(one) == 1
    ensures
      var s := Session(Browse, 1, two, "", "");
      && SelectionValid(s)
      && Run(s, [Press(Char('r'), one, nmcli), Press(Char('\n'), one, nmcli)]).last.phase == Done(Panicked)
  {
    ShrinkThenSelectPanics(Session(Browse, 1, two, "", ""), Press(Char('r'), one, nmcli), Press(Char('\n'), one, nmcli));
  }

  /** With the second of the two networks highlighted, `r` refreshes to the
      one-network listing and Enter then panics, whatever `nmcli` would do. */
  lemma ShrinkingRefreshPanics(nmcli: seq<string> -> ProcessResult)
    ensures
      var s := Session(Browse, 1, TwoNetworks, "", "");
      var inputs := [Press(Char('r'), OneNetwork, nmcli), Press(Char('\n'), OneNetwork, nmcli)];
      && SelectionValid(s)
      && Run(s, inputs).last.phase == Done(Panicked)
  {
    TwoNetworksSsids();
    OneNetworkLine();
    ShrinkFromTwoToOnePanics(TwoNetworks, OneNetwork, nmcli);
  }
}
