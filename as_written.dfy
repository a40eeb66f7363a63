/** The places where src/grammer.cpp computes something other than the
    analysis its comments and callers describe, modelled as written, each
    with a concrete grammar that shows the difference; the nullable flags and
    FIRST sets such an example relies on are proved to be that grammar's own
    least solutions. The rest of the project uses the corrected definitions.
    A read outside an array, which the C++ does not check, is None. */
module AsWritten {
  import opened Wrappers
  import opened GrammarSpec

  // ---------------------------------------------------------------------------
  // derive_empty indexes the flags by the symbol itself

  /** `derive_empty` as written: a variable's flag is read at the symbol
      number, not at the symbol number minus the terminator count. */
  function DeriveEmptyAsWritten(g: Cfg, flags: seq<bool>, s: Symbol): (r: Option<bool>)
    requires |flags| == g.VariableNum() && g.IsSymbol(s)
    ensures r.None? <==> g.IsVariable(s) && s >= |flags|
    ensures g.IsTerminator(s) ==> r == Some(DerivesEmptyUnder(g, flags, s))
    ensures g.IsVariable(s) && g.IsSymbol(s + g.terminatorNum) ==>
              r == Some(DerivesEmptyUnder(g, flags, s + g.terminatorNum))
  {
    if s < g.terminatorNum then Some(s == g.EmptySymbol())
    else if s < |flags| then Some(flags[s])
    else None
  }

  /** Two terminators, S -> A, A -> S, B -> [empty]: S (numbered 2) reads the
      flag at index 2, which belongs to B. */
  function RawIndexGrammar(): Cfg
  {
    Cfg(2, 5, 2, [Production(2, [3], "S -> A"), Production(3, [2], "A -> S"), Production(4, [1], "B -> @")])
  }

  /** Under the least flags of that grammar the raw index says S derives
      empty, though S does not. */
  lemma DeriveEmptyAsWrittenIsWrong()
    ensures RawIndexGrammar().WellFormed()
    ensures IsLeastNullable(RawIndexGrammar(), [false, false, true])
    ensures DeriveEmptyAsWritten(RawIndexGrammar(), [false, false, true], 2) == Some(true)
    ensures !Nullable(RawIndexGrammar(), 2)
  {
    var g := RawIndexGrammar();
    var f := [false, false, true];
    assert g.productions[0].right == [3] && g.productions[1].right == [2] && g.productions[2].right == [1];
    assert !DerivesEmptyUnder(g, f, 3) && !DerivesEmptyUnder(g, f, 2);
    assert !DerivesEmptyUnder(g, f, [3][0]) && !DerivesEmptyUnder(g, f, [2][0]);
    assert NullableClosedAt(g, f, 0) && NullableClosedAt(g, f, 1);
    assert DerivesEmptyUnder(g, f, 1);
    assert NullableClosedAt(g, f, 2);
    assert NullableClosed(g, f);
    forall h: seq<bool> | |h| == g.VariableNum() && NullableClosed(g, h)
      ensures Below(f, h)
    {
      assert NullableClosedAt(g, h, 2);
      assert DerivesEmptyUnder(g, h, 1);
    }
  }

  // ---------------------------------------------------------------------------
  // The nullable scan reads the flag before index 0 at the empty symbol

  /** The test of a right side in the nullable loop as written: a terminator
      other than the empty symbol stops it; every other symbol has its flag
      read at symbol - T, which for the empty symbol is index -1. */
  function RightSideDerivesEmptyAsWritten(g: Cfg, flags: seq<bool>, r: seq<Symbol>): (res: Option<bool>)
    requires |flags| == g.VariableNum() && g.AllSymbols(r)
    ensures res.None? ==> g.EmptySymbol() in r
    ensures g.EmptySymbol() !in r ==> res == Some(AllDeriveEmptyUnder(g, flags, r))
    decreases |r|
  {
    if |r| == 0 then Some(true)
    else if g.IsTerminator(r[0]) && r[0] != g.EmptySymbol() then Some(false)
    else if r[0] < g.terminatorNum then None
    else if !flags[r[0] - g.terminatorNum] then Some(false)
    else
      var rest := RightSideDerivesEmptyAsWritten(g, flags, r[1..]);
      assert forall k :: 1 <= k < |r| ==> r[1..][k - 1] == r[k];
      rest
  }

  /** A -> [empty, empty] is not flagged by the first loop, and the scan of
      its right side reads outside the flags, though the right side derives
      empty. */
  lemma EmptySymbolReadsOutsideFlags()
    ensures var g := Cfg(2, 3, 2, [Production(2, [1, 1], "A -> @ @")]);
      g.WellFormed()
      && RightSideDerivesEmptyAsWritten(g, [false], [1, 1]).None?
      && AllDeriveEmptyUnder(g, [false], [1, 1])
  {
    var g := Cfg(2, 3, 2, [Production(2, [1, 1], "A -> @ @")]);
    assert DerivesEmptyUnder(g, [false], 1);
  }

  // ---------------------------------------------------------------------------
  // string_first tests FIRST of the symbol numbered |w| - 1, wherever the loop stopped

  /** `string_first` as written: the loop part without the empty symbol,
      which the corrected method shares, then the empty symbol when FIRST of
      the symbol numbered |w| - 1, not of the last symbol of w, holds it. */
  function StringFirstAsWritten(g: Cfg, fs: seq<set<Symbol>>, w: seq<Symbol>): (r: Option<set<Symbol>>)
    requires FirstVectorOk(g, fs) && g.AllSymbols(w)
    ensures r.None? <==> |w| > |fs|
    ensures r.Some? ==> r.value - {g.EmptySymbol()} == StringFirst(g, fs, w) - {g.EmptySymbol()}
    ensures r.Some? && |w| > 0 ==> (g.EmptySymbol() in r.value <==> g.EmptySymbol() in fs[|w| - 1])
  {
    if |w| == 0 then Some({})
    else if |w| - 1 >= |fs| then None
    else Some((StringFirst(g, fs, w) - {g.EmptySymbol()}) +
              (if g.EmptySymbol() in fs[|w| - 1] then {g.EmptySymbol()} else {}))
  }

  /** Two terminators (0 the stack bottom, 1 the empty symbol) and
      A -> [empty]. */
  function NullableGrammar(): Cfg
  {
    Cfg(2, 3, 2, [Production(2, [1], "A -> @")])
  }

  /** The analyses of that grammar: A is nullable and FIRST(A) = {empty}. */
  lemma NullableGrammarAnalyses()
    ensures NullableGrammar().WellFormed()
    ensures IsLeastNullable(NullableGrammar(), [true])
    ensures IsLeastFirst(NullableGrammar(), [true], [{0}, {1}, {1}])
  {
    var g := NullableGrammar();
    var nullable := [true];
    var fs := [{0}, {1}, {1}];
    assert g.productions[0].right == [1];
    assert DerivesEmptyUnder(g, nullable, 1);
    assert NullableClosedAt(g, nullable, 0);
    forall f: seq<bool> | |f| == g.VariableNum() && NullableClosed(g, f)
      ensures Below(nullable, f)
    {
      assert NullableClosedAt(g, f, 0);
      assert DerivesEmptyUnder(g, f, 1);
    }
    assert InitialFirst(g, 2) == {1};
    assert FirstClosedAt(g, nullable, fs, 0);
    forall h: seq<set<Symbol>> | FirstClosed(g, nullable, h)
      ensures SetsBelow(fs, h)
    {
      assert InitialFirst(g, 0) <= h[0] && InitialFirst(g, 1) <= h[1] && InitialFirst(g, 2) <= h[2];
    }
  }

  /** With the grammar's own FIRST sets, the test of FIRST of the symbol
      numbered |w| - 1 misses the empty symbol for the string [A] and adds it
      for [0, 0]. */
  lemma StringFirstAsWrittenIsWrong()
    ensures var g := NullableGrammar();
      var fs := [{0}, {1}, {1}];
      g.WellFormed() && IsLeastFirst(g, [true], fs)
      && StringFirstAsWritten(g, fs, [2]) == Some({}) && StringFirst(g, fs, [2]) == {1}
      && StringFirstAsWritten(g, fs, [0, 0]) == Some({0, 1}) && StringFirst(g, fs, [0, 0]) == {0}
  {
    NullableGrammarAnalyses();
    var g := NullableGrammar();
    var fs := [{0}, {1}, {1}];
    assert StringFirst(g, fs, [2]) == {1};
    assert StringFirst(g, fs, [0, 0]) == {0};
    var one := StringFirstAsWritten(g, fs, [2]).value;
    assert 1 !in one && one - {1} == {};
    assert one == one - {1};
    var two := StringFirstAsWritten(g, fs, [0, 0]).value;
    assert 1 in two && two - {1} == {0};
    assert two == (two - {1}) + {1};
    assert one == {} && two == {0, 1};
  }

  /** Three terminators (0 normal, 1 the stack bottom, 2 the empty symbol),
      S -> [empty] and A -> [empty]. */
  function TwoNullablesGrammar(): Cfg
  {
    Cfg(3, 5, 3, [Production(3, [2], "S -> @"), Production(4, [2], "A -> @")])
  }

  /** The analyses of that grammar: S and A are nullable, FIRST of each is
      {empty}. */
  lemma TwoNullablesGrammarAnalyses()
    ensures TwoNullablesGrammar().WellFormed()
    ensures IsLeastNullable(TwoNullablesGrammar(), [true, true])
    ensures IsLeastFirst(TwoNullablesGrammar(), [true, true], [{0}, {1}, {2}, {2}, {2}])
  {
    TwoNullablesNullable();
    TwoNullablesFirstClosed();
    TwoNullablesFirstLeast();
  }

  lemma TwoNullablesNullable()
    ensures TwoNullablesGrammar().WellFormed()
    ensures IsLeastNullable(TwoNullablesGrammar(), [true, true])
  {
    var g := TwoNullablesGrammar();
    var nullable := [true, true];
    assert g.productions[0].right == [2] && g.productions[1].right == [2];
    assert DerivesEmptyUnder(g, nullable, 2);
    assert NullableClosedAt(g, nullable, 0) && NullableClosedAt(g, nullable, 1);
    forall f: seq<bool> | |f| == g.VariableNum() && NullableClosed(g, f)
      ensures Below(nullable, f)
    {
      assert NullableClosedAt(g, f, 0) && NullableClosedAt(g, f, 1);
      assert DerivesEmptyUnder(g, f, 2);
    }
  }

  lemma TwoNullablesFirstClosed()
    requires TwoNullablesGrammar().WellFormed()
    ensures FirstClosed(TwoNullablesGrammar(), [true, true], [{0}, {1}, {2}, {2}, {2}])
  {
    var g := TwoNullablesGrammar();
    var nullable := [true, true];
    var fs := [{0}, {1}, {2}, {2}, {2}];
    assert g.productions[0].right == [2] && g.productions[1].right == [2];
    assert InitialFirst(g, 3) == {2} && InitialFirst(g, 4) == {2};
    assert FirstClosedAt(g, nullable, fs, 0) && FirstClosedAt(g, nullable, fs, 1);
  }

  lemma TwoNullablesFirstLeast()
    requires TwoNullablesGrammar().WellFormed()
    ensures BelowEveryFirstClosed(TwoNullablesGrammar(), [true, true], [{0}, {1}, {2}, {2}, {2}])
  {
    var g := TwoNullablesGrammar();
    var nullable := [true, true];
    var fs := [{0}, {1}, {2}, {2}, {2}];
    assert InitialFirst(g, 3) == {2} && InitialFirst(g, 4) == {2};
    forall h: seq<set<Symbol>> | FirstClosed(g, nullable, h)
      ensures SetsBelow(fs, h)
    {
      assert InitialFirst(g, 0) <= h[0] && InitialFirst(g, 1) <= h[1] && InitialFirst(g, 2) <= h[2];
      assert InitialFirst(g, 3) <= h[3] && InitialFirst(g, 4) <= h[4];
    }
  }

  /** The test at the end of `string_first` also ignores where the loop
      stopped. For A 0 A S the symbol numbered |w| - 1 = 3 is S, the last
      symbol, and FIRST(S) holds the empty symbol; yet the loop stopped at the
      terminator 0, and the string does not derive empty. */
  lemma StringFirstIgnoresLoopStop()
    ensures var g := TwoNullablesGrammar();
      var fs := [{0}, {1}, {2}, {2}, {2}];
      var w := [4, 0, 4, 3];
      g.WellFormed() && IsLeastFirst(g, [true, true], fs) && w[|w| - 1] == |w| - 1
      && StringFirstAsWritten(g, fs, w) == Some({0, 2}) && StringFirst(g, fs, w) == {0}
  {
    TwoNullablesGrammarAnalyses();
    var g := TwoNullablesGrammar();
    var fs := [{0}, {1}, {2}, {2}, {2}];
    var w := [4, 0, 4, 3];
    assert w[1..] == [0, 4, 3];
    assert StringFirst(g, fs, [0, 4, 3]) == {0};
    assert StringFirst(g, fs, w) == {0};
    assert StringFirstAsWritten(g, fs, w) == Some(({0} - {2}) + {2});
    assert ({0} - {2}) + {2} == {0, 2};
  }

  // ---------------------------------------------------------------------------
  // The FIRST loop has no break after the first symbol that does not derive empty

  /** FIRST without the empty symbol of r[1], ..., r[j]. */
  function RangeFirst(g: Cfg, fs: seq<set<Symbol>>, r: seq<Symbol>, j: int): (c: set<Symbol>)
    requires FirstVectorOk(g, fs) && g.AllSymbols(r) && j < |r|
    ensures forall k :: 1 <= k <= j ==> fs[r[k]] - {g.EmptySymbol()} <= c
    ensures g.EmptySymbol() !in c
    decreases j
  {
    if j < 1 then {} else RangeFirst(g, fs, r, j - 1) + (fs[r[j]] - {g.EmptySymbol()})
  }

  /** The inner loop over j from position j on: each symbol that does not
      derive empty clears the flag and unions RangeFirst up to that symbol;
      the flag stays set only when every symbol derives empty. */
  function InnerAsWritten(g: Cfg, nullable: seq<bool>, fs: seq<set<Symbol>>, r: seq<Symbol>, j: nat)
    : (res: (set<Symbol>, bool))
    requires |nullable| == g.VariableNum() && FirstVectorOk(g, fs) && g.AllSymbols(r) && j <= |r|
    ensures res.1 <==> forall k :: j <= k < |r| ==> DerivesEmptyUnder(g, nullable, r[k])
    ensures res.1 ==> res.0 == {}
    ensures g.EmptySymbol() !in res.0
    decreases |r| - j
  {
    if j == |r| then ({}, true)
    else
      var rest := InnerAsWritten(g, nullable, fs, r, j + 1);
      if !DerivesEmptyUnder(g, nullable, r[j]) then (RangeFirst(g, fs, r, j) + rest.0, false) else rest
  }

  /** What one step of the FIRST loop as written adds to FIRST of the left
      side (with `derive_empty` taken as corrected, to separate the two
      faults). */
  function FirstContributionAsWritten(g: Cfg, nullable: seq<bool>, fs: seq<set<Symbol>>, r: seq<Symbol>)
    : (c: set<Symbol>)
    requires |nullable| == g.VariableNum() && FirstVectorOk(g, fs) && g.AllSymbols(r) && |r| > 0
    ensures !g.IsVariable(r[0]) ==> c == {}
    ensures g.IsVariable(r[0]) ==> fs[r[0]] - {g.EmptySymbol()} <= c
    ensures g.EmptySymbol() in c ==> g.IsVariable(r[0]) && AllDeriveEmptyUnder(g, nullable, r)
  {
    if !g.IsVariable(r[0]) then {}
    else
      (fs[r[0]] - {g.EmptySymbol()}) +
      (if DerivesEmptyUnder(g, nullable, r[0]) then
         var inner := InnerAsWritten(g, nullable, fs, r, 0);
         inner.0 + (if inner.1 then {g.EmptySymbol()} else {})
       else {})
  }

  /** Four terminators (0 and 1 normal, 2 the stack bottom, 3 the empty
      symbol) and 4 -> [empty], 5 -> 1, 6 -> 4 0 5. */
  function PastTerminatorGrammar(): Cfg
  {
    Cfg(4, 7, 4, [Production(4, [3], "A -> @"), Production(5, [1], "B -> b"), Production(6, [4, 0, 5], "C -> A a B")])
  }

  /** The analyses of that grammar: only 4 is nullable; FIRST(4) = {empty},
      FIRST(5) = {1}, FIRST(6) = {0}. */
  lemma PastTerminatorGrammarAnalyses()
    ensures PastTerminatorGrammar().WellFormed()
    ensures IsLeastNullable(PastTerminatorGrammar(), [true, false, false])
    ensures IsLeastFirst(PastTerminatorGrammar(), [true, false, false], [{0}, {1}, {2}, {3}, {3}, {1}, {0}])
  {
    PastTerminatorNullable();
    PastTerminatorFirstClosed();
    PastTerminatorFirstLeast();
  }

  lemma PastTerminatorNullable()
    ensures PastTerminatorGrammar().WellFormed()
    ensures IsLeastNullable(PastTerminatorGrammar(), [true, false, false])
  {
    var g := PastTerminatorGrammar();
    var nullable := [true, false, false];
    var r := [4, 0, 5];
    assert g.productions[0].right == [3] && g.productions[1].right == [1] && g.productions[2].right == r;
    assert DerivesEmptyUnder(g, nullable, 3);
    assert !AllDeriveEmptyUnder(g, nullable, [1]) by { assert !DerivesEmptyUnder(g, nullable, [1][0]); }
    assert !AllDeriveEmptyUnder(g, nullable, r) by { assert !DerivesEmptyUnder(g, nullable, r[1]); }
    assert NullableClosedAt(g, nullable, 0) && NullableClosedAt(g, nullable, 1) && NullableClosedAt(g, nullable, 2);
    forall f: seq<bool> | |f| == g.VariableNum() && NullableClosed(g, f)
      ensures Below(nullable, f)
    {
      assert NullableClosedAt(g, f, 0);
      assert DerivesEmptyUnder(g, f, 3);
    }
  }

  lemma PastTerminatorFirstClosed()
    requires PastTerminatorGrammar().WellFormed()
    ensures FirstClosed(PastTerminatorGrammar(), [true, false, false], [{0}, {1}, {2}, {3}, {3}, {1}, {0}])
  {
    var g := PastTerminatorGrammar();
    var nullable := [true, false, false];
    var fs := [{0}, {1}, {2}, {3}, {3}, {1}, {0}];
    var r := [4, 0, 5];
    assert g.productions[0].right == [3] && g.productions[1].right == [1] && g.productions[2].right == r;
    assert InitialFirst(g, 4) == {3} && InitialFirst(g, 5) == {1} && InitialFirst(g, 6) == {};
    assert PrefixFirst(g, nullable, fs, r, 2) == {1};
    assert PrefixFirst(g, nullable, fs, r, 1) == {0};
    assert FirstContribution(g, nullable, fs, r) == {0};
    assert FirstClosedAt(g, nullable, fs, 0) && FirstClosedAt(g, nullable, fs, 1) && FirstClosedAt(g, nullable, fs, 2);
  }

  lemma PastTerminatorFirstLeast()
    requires PastTerminatorGrammar().WellFormed()
    ensures BelowEveryFirstClosed(PastTerminatorGrammar(), [true, false, false], [{0}, {1}, {2}, {3}, {3}, {1}, {0}])
  {
    var g := PastTerminatorGrammar();
    var nullable := [true, false, false];
    var fs := [{0}, {1}, {2}, {3}, {3}, {1}, {0}];
    var r := [4, 0, 5];
    assert g.productions[2].right == r;
    assert InitialFirst(g, 4) == {3} && InitialFirst(g, 5) == {1};
    forall h: seq<set<Symbol>> | FirstClosed(g, nullable, h)
      ensures SetsBelow(fs, h)
    {
      assert InitialFirst(g, 0) <= h[0] && InitialFirst(g, 1) <= h[1] && InitialFirst(g, 2) <= h[2];
      assert InitialFirst(g, 3) <= h[3] && InitialFirst(g, 4) <= h[4] && InitialFirst(g, 5) <= h[5];
      assert FirstClosedAt(g, nullable, h, 2);
      assert h[0] - {3} <= PrefixFirst(g, nullable, h, r, 1);
    }
  }

  /** On that grammar's own analyses, the loop as written goes on past the
      terminator 0 and adds FIRST(5) = {1} to FIRST(6), where 1 does not
      belong. */
  lemma FirstLoopPassesNonNullable()
    ensures var g := PastTerminatorGrammar();
      var nullable := [true, false, false];
      var fs := [{0}, {1}, {2}, {3}, {3}, {1}, {0}];
      g.WellFormed() && IsLeastNullable(g, nullable) && IsLeastFirst(g, nullable, fs)
      && FirstContributionAsWritten(g, nullable, fs, [4, 0, 5]) == {0, 1}
      && FirstContribution(g, nullable, fs, [4, 0, 5]) == {0}
      && 1 !in fs[6]
  {
    PastTerminatorGrammarAnalyses();
    var g := PastTerminatorGrammar();
    var nullable := [true, false, false];
    var fs := [{0}, {1}, {2}, {3}, {3}, {1}, {0}];
    assert RangeFirst(g, fs, [4, 0, 5], 2) == {0, 1};
    assert InnerAsWritten(g, nullable, fs, [4, 0, 5], 0).0 == {0, 1};
    assert PrefixFirst(g, nullable, fs, [4, 0, 5], 1) == {0};
  }

  /** The same terminators and 4 -> [empty], 5 -> 0, 5 -> [empty], 6 -> 4 5. */
  function NullableTailGrammar(): Cfg
  {
    Cfg(4, 7, 4, [Production(4, [3], "A -> @"), Production(5, [0], "B -> a"), Production(5, [3], "B -> @"),
                  Production(6, [4, 5], "C -> A B")])
  }

  /** The analyses of that grammar: all three variables are nullable;
      FIRST(4) = {empty}, FIRST(5) = FIRST(6) = {0, empty}. */
  lemma NullableTailGrammarAnalyses()
    ensures NullableTailGrammar().WellFormed()
    ensures IsLeastNullable(NullableTailGrammar(), [true, true, true])
    ensures IsLeastFirst(NullableTailGrammar(), [true, true, true], [{0}, {1}, {2}, {3}, {3}, {0, 3}, {0, 3}])
  {
    NullableTailNullable();
    NullableTailFirstClosed();
    NullableTailFirstLeast();
  }

  lemma NullableTailNullable()
    ensures NullableTailGrammar().WellFormed()
    ensures IsLeastNullable(NullableTailGrammar(), [true, true, true])
  {
    var g := NullableTailGrammar();
    var nullable := [true, true, true];
    var r := [4, 5];
    assert g.productions[0].right == [3] && g.productions[1].right == [0] && g.productions[2].right == [3];
    assert g.productions[3].right == r;
    assert DerivesEmptyUnder(g, nullable, 3);
    assert NullableClosedAt(g, nullable, 0) && NullableClosedAt(g, nullable, 1);
    assert NullableClosedAt(g, nullable, 2) && NullableClosedAt(g, nullable, 3);
    forall f: seq<bool> | |f| == g.VariableNum() && NullableClosed(g, f)
      ensures Below(nullable, f)
    {
      assert NullableClosedAt(g, f, 0) && NullableClosedAt(g, f, 2);
      assert DerivesEmptyUnder(g, f, 3);
      assert DerivesEmptyUnder(g, f, r[0]) && DerivesEmptyUnder(g, f, r[1]);
      assert NullableClosedAt(g, f, 3);
    }
  }

  lemma NullableTailFirstClosed()
    requires NullableTailGrammar().WellFormed()
    ensures FirstClosed(NullableTailGrammar(), [true, true, true], [{0}, {1}, {2}, {3}, {3}, {0, 3}, {0, 3}])
  {
    var g := NullableTailGrammar();
    var nullable := [true, true, true];
    var fs := [{0}, {1}, {2}, {3}, {3}, {0, 3}, {0, 3}];
    var r := [4, 5];
    assert g.productions[0].right == [3] && g.productions[1].right == [0] && g.productions[2].right == [3];
    assert g.productions[3].right == r;
    assert InitialFirst(g, 4) == {3} && InitialFirst(g, 5) == {0, 3} && InitialFirst(g, 6) == {};
    assert PrefixFirst(g, nullable, fs, r, 1) == {0, 3};
    assert FirstContribution(g, nullable, fs, r) == {0, 3};
    assert FirstClosedAt(g, nullable, fs, 0) && FirstClosedAt(g, nullable, fs, 1);
    assert FirstClosedAt(g, nullable, fs, 2) && FirstClosedAt(g, nullable, fs, 3);
  }

  lemma NullableTailFirstLeast()
    requires NullableTailGrammar().WellFormed()
    ensures BelowEveryFirstClosed(NullableTailGrammar(), [true, true, true], [{0}, {1}, {2}, {3}, {3}, {0, 3}, {0, 3}])
  {
    var g := NullableTailGrammar();
    var nullable := [true, true, true];
    var fs := [{0}, {1}, {2}, {3}, {3}, {0, 3}, {0, 3}];
    var r := [4, 5];
    assert g.productions[3].right == r;
    assert InitialFirst(g, 4) == {3} && InitialFirst(g, 5) == {0, 3};
    forall h: seq<set<Symbol>> | FirstClosed(g, nullable, h)
      ensures SetsBelow(fs, h)
    {
      assert InitialFirst(g, 0) <= h[0] && InitialFirst(g, 1) <= h[1] && InitialFirst(g, 2) <= h[2];
      assert InitialFirst(g, 3) <= h[3] && InitialFirst(g, 4) <= h[4] && InitialFirst(g, 5) <= h[5];
      assert FirstClosedAt(g, nullable, h, 3);
      assert PrefixFirst(g, nullable, h, r, 2) == {3};
      assert (h[5] - {3}) + {3} <= PrefixFirst(g, nullable, h, r, 1);
    }
  }

  /** On that grammar's own analyses, the loop as written adds only the
      empty symbol for 6 -> 4 5, its only production, and never FIRST(5):
      the terminator 0 of FIRST(6) is missed. */
  lemma FirstLoopSkipsNullableTail()
    ensures var g := NullableTailGrammar();
      var nullable := [true, true, true];
      var fs := [{0}, {1}, {2}, {3}, {3}, {0, 3}, {0, 3}];
      g.WellFormed() && IsLeastNullable(g, nullable) && IsLeastFirst(g, nullable, fs)
      && FirstContributionAsWritten(g, nullable, fs, [4, 5]) == {3}
      && FirstContribution(g, nullable, fs, [4, 5]) == {0, 3}
      && 0 in fs[6]
  {
    NullableTailGrammarAnalyses();
    var g := NullableTailGrammar();
    var nullable := [true, true, true];
    var fs := [{0}, {1}, {2}, {3}, {3}, {0, 3}, {0, 3}];
    assert InnerAsWritten(g, nullable, fs, [4, 5], 0) == ({}, true);
    assert PrefixFirst(g, nullable, fs, [4, 5], 2) == {3};
    assert PrefixFirst(g, nullable, fs, [4, 5], 1) == {0, 3};
  }
}
