/** minigrep: a small `grep`. `NewConfig` validates the command line, the two
    searches keep the lines of a text that contain a query (exactly, or
    ignoring ASCII case), and `Run` picks one of them. Reading the file, the
    environment variable and printing stay outside: the file's text and
    whether CASE_INSENSITIVE is set are parameters. */
module Minigrep {
  import opened RustStd
  import opened Text

  datatype Config = Config(query: string, filename: string, caseSensitive: bool)

  /** `Config::new`: needs the program name and two arguments. Case
      sensitivity is on exactly when CASE_INSENSITIVE is not set. */
  function NewConfig(args: seq<string>, caseInsensitiveSet: bool): (r: Result<Config, string>)
    ensures r.Err? <==> |args| < 3
    ensures r.Err? ==> r.error == "not enough arguments"
    ensures r.Ok? ==> r.value.query == args[1] && r.value.filename == args[2]
    ensures r.Ok? ==> (r.value.caseSensitive <==> !caseInsensitiveSet)
  {
    if |args| < 3 then Err("not enough arguments")
    else Ok(Config(args[1], args[2], !caseInsensitiveSet))
  }

  // ---------------------------------------------------------------------
  // `str::lines`

  /** Position of the first '\n' of `s`, or `|s|` when there is none. */
  function LineEnd(s: string): (k: nat)
    ensures k <= |s|
    ensures forall j :: 0 <= j < k ==> s[j] != '\n'
    ensures k < |s| ==> s[k] == '\n'
  {
    if s == [] || s[0] == '\n' then 0 else 1 + LineEnd(s[1..])
  }

  /** Drops the '\r' of a "\r\n" line ending. */
  function StripCr(line: string): string
  {
    if |line| > 0 && line[|line| - 1] == '\r' then line[..|line| - 1] else line
  }

  /** `str::lines`: the pieces between '\n's, each "\r\n" counting as one
      ending; a final ending adds no empty line, and "" has no lines. */
  function Lines(s: string): (ls: seq<string>)
    ensures forall i :: 0 <= i < |ls| ==> '\n' !in ls[i]
    ensures |ls| <= |s|
    ensures s != [] ==> ls != []
    decreases |s|
  {
    if s == [] then []
    else
      var k := LineEnd(s);
      assert '\n' !in s[..k];
      if k == |s| then [s]
      else [StripCr(s[..k])] + Lines(s[k + 1..])
  }

  /** Text without '\r' is its lines joined by '\n', plus the final '\n'
      when it ends with one: splitting loses nothing else. */
  lemma {:induction false} LinesJoin(s: string)
    requires '\r' !in s
    ensures Join(Lines(s), "\n") == if s != [] && s[|s| - 1] == '\n' then s[..|s| - 1] else s
    decreases |s|
  {
    if s != [] && LineEnd(s) < |s| {
      var k := LineEnd(s);
      var line, rest := s[..k], s[k + 1..];
      assert k > 0 ==> s[k - 1] != '\r';
      LinesStep(s, k);
      NoCrAfter(s, k + 1);
      if rest == [] {
        assert s[..|s| - 1] == line;
      } else {
        LinesJoin(rest);
        JoinCons(line, Lines(rest), "\n");
        TrimAfterLine(line, rest);
      }
    }
  }

  /** One step of the split: the first line, its '\n', and the rest. */
  lemma LinesStep(s: string, k: nat)
    requires s != [] && k == LineEnd(s) < |s|
    requires k > 0 ==> s[k - 1] != '\r'
    ensures s == s[..k] + "\n" + s[k + 1..]
    ensures Lines(s) == [s[..k]] + Lines(s[k + 1..])
  {
    SplitAtNewline(s, k);
    StripCrKeeps(s[..k]);
  }

  lemma SplitAtNewline(s: string, k: nat)
    requires k < |s| && s[k] == '\n'
    ensures s == s[..k] + "\n" + s[k + 1..]
  {
    assert s == s[..k] + "\n" + s[k + 1..];
  }

  /** A line that does not end in '\r' is left as it is. */
  lemma StripCrKeeps(line: string)
    requires line == [] || line[|line| - 1] != '\r'
    ensures StripCr(line) == line
  {
  }

  /** A suffix of text without '\r' has none either. */
  lemma NoCrAfter(s: string, k: nat)
    requires '\r' !in s && k <= |s|
    ensures '\r' !in s[k..]
  {
    forall j | 0 <= j < |s[k..]| ensures s[k..][j] != '\r' {
      assert s[k..][j] == s[k + j];
    }
  }

  /** Dropping a final '\n' after a first line touches only the rest. */
  lemma TrimAfterLine(line: string, rest: string)
    requires rest != []
    ensures var s := line + "\n" + rest;
      s[|s| - 1] == rest[|rest| - 1]
      && (rest[|rest| - 1] == '\n' ==> s[..|s| - 1] == line + "\n" + rest[..|rest| - 1])
  {
    var s := line + "\n" + rest;
    if rest[|rest| - 1] == '\n' {
      assert s[..|s| - 1] == line + "\n" + rest[..|rest| - 1];
    }
  }

  // ---------------------------------------------------------------------
  // What the searches select

  /** Whether a search keeps `line` for `query`. */
  predicate Keeps(line: string, query: string, caseSensitive: bool)
  {
    if caseSensitive then Contains(line, query)
    else Contains(ToLower(line), ToLower(query))
  }

  /** The lines a search returns: those it keeps, in their order. */
  function Selected(lines: seq<string>, query: string, caseSensitive: bool): seq<string>
  {
    if lines == [] then []
    else
      var last := lines[|lines| - 1];
      Selected(lines[..|lines| - 1], query, caseSensitive)
        + (if Keeps(last, query, caseSensitive) then [last] else [])
  }

  /** Positions of the kept lines, in increasing order. */
  function KeptIndices(lines: seq<string>, query: string, caseSensitive: bool): seq<nat>
  {
    if lines == [] then []
    else
      KeptIndices(lines[..|lines| - 1], query, caseSensitive)
        + (if Keeps(lines[|lines| - 1], query, caseSensitive) then [|lines| - 1] else [])
  }

  /** The selection is exactly the kept lines, as a subsequence: the k-th
      result is the line at the k-th kept position, the positions increase,
      and every kept position is among them. */
  lemma {:induction false} SelectedIsOrderedFilter(lines: seq<string>, query: string, caseSensitive: bool)
    ensures var idx := KeptIndices(lines, query, caseSensitive);
      && |Selected(lines, query, caseSensitive)| == |idx|
      && (forall k :: 0 <= k < |idx| ==> idx[k] < |lines| && Keeps(lines[idx[k]], query, caseSensitive))
      && (forall k :: 0 <= k < |idx| ==> Selected(lines, query, caseSensitive)[k] == lines[idx[k]])
      && (forall k, m :: 0 <= k < m < |idx| ==> idx[k] < idx[m])
      && (forall j :: 0 <= j < |lines| && Keeps(lines[j], query, caseSensitive) ==> j in idx)
  {
    if lines != [] {
      var init := lines[..|lines| - 1];
      SelectedIsOrderedFilter(init, query, caseSensitive);
      var idx0 := KeptIndices(init, query, caseSensitive);
      assert forall k :: 0 <= k < |idx0| ==> idx0[k] < |init|;
      assert forall j :: 0 <= j < |init| ==> init[j] == lines[j];
    }
  }

  /** A line is in the result exactly when it is a line of the text that the
      search keeps. */
  lemma {:induction false} SelectedMembers(lines: seq<string>, query: string, caseSensitive: bool)
    ensures forall l :: l in Selected(lines, query, caseSensitive) <==> l in lines && Keeps(l, query, caseSensitive)
  {
    if lines != [] {
      var init := lines[..|lines| - 1];
      SelectedMembers(init, query, caseSensitive);
      assert lines == init + [lines[|lines| - 1]];
    }
  }

  /** A search never returns more lines than the text has. */
  lemma {:induction false} SelectedLength(lines: seq<string>, query: string, caseSensitive: bool)
    ensures |Selected(lines, query, caseSensitive)| <= |lines|
  {
    if lines != [] {
      SelectedLength(lines[..|lines| - 1], query, caseSensitive);
    }
  }

  /** One step of the searches' loop: one more line of input. */
  lemma SelectedStep(lines: seq<string>, i: nat, query: string, caseSensitive: bool)
    requires i < |lines|
    ensures Selected(lines[..i + 1], query, caseSensitive)
         == Selected(lines[..i], query, caseSensitive)
            + (if Keeps(lines[i], query, caseSensitive) then [lines[i]] else [])
  {
    assert lines[..i + 1][..i] == lines[..i];
  }

  // ---------------------------------------------------------------------
  // The searches

  /** `search`: the lines of `contents` that contain `query`. */
  method Search(query: string, contents: string) returns (results: seq<string>)
    ensures results == Selected(Lines(contents), query, true)
  {
    var lines := Lines(contents);
    results := [];
    for i := 0 to |lines|
      invariant results == Selected(lines[..i], query, true)
    {
      var line := lines[i];
      SelectedStep(lines, i, query, true);
      if Contains(line, query) {
        results := results + [line];
      }
    }
    assert lines[..|lines|] == lines;
  }

  /** `search_case_insensitive`: the query is lowercased once, each line is
      lowercased before the test, and the original line is returned. */
  method SearchCaseInsensitive(query: string, contents: string) returns (results: seq<string>)
    ensures results == Selected(Lines(contents), query, false)
  {
    var lowered := ToLower(query);
    var lines := Lines(contents);
    results := [];
    for i := 0 to |lines|
      invariant results == Selected(lines[..i], query, false)
    {
      var line := lines[i];
      SelectedStep(lines, i, query, false);
      if Contains(ToLower(line), lowered) {
        results := results + [line];
      }
    }
    assert lines[..|lines|] == lines;
  }

  /** The search part of `run`: case-sensitive search when the configuration
      asks for it, the case-insensitive one otherwise. */
  method Run(config: Config, contents: string) returns (results: seq<string>)
    ensures results == Selected(Lines(contents), config.query, config.caseSensitive)
  {
    if config.caseSensitive {
      results := Search(config.query, contents);
    } else {
      results := SearchCaseInsensitive(config.query, contents);
    }
  }

  /** A line without '\n' and without a trailing '\r', then a '\n': the first
      line is that line. */
  lemma LinesCons(a: string, rest: string)
    requires '\n' !in a && !(|a| > 0 && a[|a| - 1] == '\r')
    ensures Lines(a + "\n" + rest) == [a] + Lines(rest)
  {
    var s := a + "\n" + rest;
    assert s[|a|] == '\n';
    assert forall j :: 0 <= j < |a| ==> s[j] == a[j];
    assert LineEnd(s) == |a|;
    assert s[..|a|] == a;
    assert s[|a| + 1..] == rest;
  }

  lemma LinesLast(a: string)
    requires a != [] && '\n' !in a
    ensures Lines(a) == [a]
  {
    assert forall j :: 0 <= j < |a| ==> a[j] != '\n';
  }

  // ---------------------------------------------------------------------
  // The unit tests

  /** The selection from a four-line text, spelled out. */
  lemma Selected4(a: string, b: string, c: string, d: string, query: string, caseSensitive: bool)
    ensures Selected([a, b, c, d], query, caseSensitive)
         == (if Keeps(a, query, caseSensitive) then [a] else [])
          + (if Keeps(b, query, caseSensitive) then [b] else [])
          + (if Keeps(c, query, caseSensitive) then [c] else [])
          + (if Keeps(d, query, caseSensitive) then [d] else [])
  {
    var ka := if Keeps(a, query, caseSensitive) then [a] else [];
    var kb := if Keeps(b, query, caseSensitive) then [b] else [];
    var kc := if Keeps(c, query, caseSensitive) then [c] else [];
    var kd := if Keeps(d, query, caseSensitive) then [d] else [];
    assert [a, b, c, d][..3] == [a, b, c];
    assert [a, b, c][..2] == [a, b];
    assert [a, b][..1] == [a];
    assert [a][..0] == [];
    assert Selected([a], query, caseSensitive) == ka;
    assert Selected([a, b], query, caseSensitive) == ka + kb;
    assert Selected([a, b, c], query, caseSensitive) == ka + kb + kc;
  }

  /** `str::lines` of a four-line text without "\r". */
  lemma Lines4(l0: string, l1: string, l2: string, l3: string)
    requires '\n' !in l0 && '\n' !in l1 && '\n' !in l2 && '\n' !in l3 && l3 != []
    requires '\r' !in l0 && '\r' !in l1 && '\r' !in l2
    ensures Lines(l0 + "\n" + (l1 + "\n" + (l2 + "\n" + l3))) == [l0, l1, l2, l3]
  {
    Lines3(l1, l2, l3);
    LinesConsNoCr(l0, l1 + "\n" + (l2 + "\n" + l3));
  }

  lemma Lines3(l1: string, l2: string, l3: string)
    requires '\n' !in l1 && '\n' !in l2 && '\n' !in l3 && l3 != []
    requires '\r' !in l1 && '\r' !in l2
    ensures Lines(l1 + "\n" + (l2 + "\n" + l3)) == [l1, l2, l3]
  {
    LinesLast(l3);
    LinesConsNoCr(l2, l3);
    LinesConsNoCr(l1, l2 + "\n" + l3);
  }

  /** A first line without '\r' is split off as it is. */
  lemma LinesConsNoCr(a: string, rest: string)
    requires '\n' !in a && '\r' !in a
    ensures Lines(a + "\n" + rest) == [a] + Lines(rest)
  {
    assert a == [] || a[|a| - 1] in a;
    LinesCons(a, rest);
  }

  /** The test `case_sensitive`, its text written one line per piece. */
  lemma CaseSensitiveTest()
    ensures Selected(Lines("Rust:" + "\n" + "safe, fast, productive." + "\n" + "Pick three." + "\n" + "Duct tape."),
                     "duct", true)
         == ["safe, fast, productive."]
  {
    var l0, l1, l2, l3 := "Rust:", "safe, fast, productive.", "Pick three.", "Duct tape.";
    assert l0 + "\n" + l1 + "\n" + l2 + "\n" + l3 == l0 + "\n" + (l1 + "\n" + (l2 + "\n" + l3));
    Lines4(l0, l1, l2, l3);
    CaseSensitiveSelection();
  }

  lemma CaseSensitiveSelection()
    ensures Selected(["Rust:", "safe, fast, productive.", "Pick three.", "Duct tape."], "duct", true)
         == ["safe, fast, productive."]
  {
    CaseSensitiveKeeps();
    SelectedSecond("Rust:", "safe, fast, productive.", "Pick three.", "Duct tape.", "duct", true);
  }

  lemma SelectedSecond(a: string, b: string, c: string, d: string, query: string, caseSensitive: bool)
    requires !Keeps(a, query, caseSensitive) && Keeps(b, query, caseSensitive)
    requires !Keeps(c, query, caseSensitive) && !Keeps(d, query, caseSensitive)
    ensures Selected([a, b, c, d], query, caseSensitive) == [b]
  {
    Selected4(a, b, c, d, query, caseSensitive);
  }

  /** Which lines of the `case_sensitive` text contain "duct"; "Duct tape."
      has an uppercase 'D', so the case-sensitive search passes it over. */
  lemma CaseSensitiveKeeps()
    ensures !Keeps("Rust:", "duct", true) && Keeps("safe, fast, productive.", "duct", true)
    ensures !Keeps("Pick three.", "duct", true) && !Keeps("Duct tape.", "duct", true)
  {
    var dropped := ["Rust:", "Pick three.", "Duct tape."];
    NoDuctInAny(dropped);
    assert dropped[0] == "Rust:" && dropped[1] == "Pick three." && dropped[2] == "Duct tape.";
    DuctInSafeFast();
  }

  /** Lines without a lowercase 'd' are dropped by the case-sensitive search for "duct". */
  lemma NoDuctInAny(lines: seq<string>)
    requires forall i :: 0 <= i < |lines| ==> 'd' !in lines[i]
    ensures forall i :: 0 <= i < |lines| ==> !Keeps(lines[i], "duct", true)
  {
    forall i | 0 <= i < |lines| ensures !Keeps(lines[i], "duct", true) {
      NotContainsWithout(lines[i], "duct", 'd');
    }
  }

  lemma DuctInSafeFast()
    ensures Keeps("safe, fast, productive.", "duct", true)
  {
    assert "safe, fast, productive."[15..19] == "duct";
    OccursContains("safe, fast, productive.", "duct", 15);
  }

  /** The test `case_insensitive`. */
  lemma CaseInsensitiveTest()
    ensures Selected(Lines("Rust:" + "\n" + "safe, fast, productive." + "\n" + "Pick three." + "\n" + "Trust me."),
                     "rUsT", false)
         == ["Rust:", "Trust me."]
  {
    var l0, l1, l2, l3 := "Rust:", "safe, fast, productive.", "Pick three.", "Trust me.";
    assert l0 + "\n" + l1 + "\n" + l2 + "\n" + l3 == l0 + "\n" + (l1 + "\n" + (l2 + "\n" + l3));
    Lines4(l0, l1, l2, l3);
    CaseInsensitiveSelection();
  }

  lemma CaseInsensitiveSelection()
    ensures Selected(["Rust:", "safe, fast, productive.", "Pick three.", "Trust me."], "rUsT", false)
         == ["Rust:", "Trust me."]
  {
    CaseInsensitiveKeeps();
    SelectedFirstAndLast("Rust:", "safe, fast, productive.", "Pick three.", "Trust me.", "rUsT", false);
  }

  lemma SelectedFirstAndLast(a: string, b: string, c: string, d: string, query: string, caseSensitive: bool)
    requires Keeps(a, query, caseSensitive) && !Keeps(b, query, caseSensitive)
    requires !Keeps(c, query, caseSensitive) && Keeps(d, query, caseSensitive)
    ensures Selected([a, b, c, d], query, caseSensitive) == [a, d]
  {
    Selected4(a, b, c, d, query, caseSensitive);
  }

  lemma CaseInsensitiveKeeps()
    ensures Keeps("Rust:", "rUsT", false) && !Keeps("safe, fast, productive.", "rUsT", false)
    ensures !Keeps("Pick three.", "rUsT", false) && Keeps("Trust me.", "rUsT", false)
  {
    QueryLowered();
    FirstLineKept();
    SafeFastProductive();
    PickThreeDropped();
    TrustMeKept();
  }

  lemma QueryLowered()
    ensures ToLower("rUsT") == "rust"
  {
  }

  lemma FirstLineKept()
    ensures Contains(ToLower("Rust:"), "rust")
  {
    assert ToLower("Rust:")[..4] == "rust";
  }

  lemma PickThreeDropped()
    ensures !Contains(ToLower("Pick three."), "rust")
  {
    LowerMember("Pick three.", 'u');
    NotContainsWithout(ToLower("Pick three."), "rust", 'u');
  }

  lemma TrustMeKept()
    ensures Contains(ToLower("Trust me."), "rust")
  {
    assert ToLower("Trust me.")[1..5] == "rust";
    OccursContains(ToLower("Trust me."), "rust", 1);
  }

  /** Its one 'r' is followed by 'o', so this line has no "rust" in it. */
  lemma SafeFastProductive()
    ensures !Contains(ToLower("safe, fast, productive."), "rust")
  {
    assert "safe, fast, productive." == "safe, fast, p" + ("r" + "oductive.");
    ToLowerAppend("safe, fast, p", "r" + "oductive.");
    AfterTheP();
    LowerMember("safe, fast, p", 'r');
    NotContainsConcat(ToLower("safe, fast, p"), ToLower("r" + "oductive."), "rust");
  }

  lemma AfterTheP()
    ensures !Contains(ToLower("r" + "oductive."), "rust")
  {
    ToLowerAppend("r", "oductive.");
    assert ToLower("r" + "oductive.")[1] == 'o';
    LowerMember("oductive.", 'r');
    NotContainsWithout(ToLower("oductive."), "rust", 'r');
  }
}
