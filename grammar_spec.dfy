/** The meaning of the three grammar analyses of `Grammer`: which syntax
    variables derive the empty symbol, the FIRST set of every symbol and the
    FOLLOW set of every variable, each as the least solution of a set of
    closure conditions, one per production. Symbols are numbered as in the
    C++ class: terminators 0 .. T-1, with the stack-bottom symbol at T-2 and the
    empty symbol at T-1, and syntax variables T .. N-1. */
module GrammarSpec {

  type Symbol = int

  /** `struct production`: left variable, right-hand symbols and source text. */
  datatype Production = Production(left: Symbol, right: seq<Symbol>, text: string)

  /** The part of a `Grammer` the analyses read: the terminator count T, the
      symbol count N, the start symbol and the productions. */
  datatype Cfg = Cfg(terminatorNum: int, symbolNum: int, start: Symbol, productions: seq<Production>)
  {
    function EmptySymbol(): Symbol { terminatorNum - 1 }

    function StackBottom(): Symbol { terminatorNum - 2 }

    function VariableNum(): int { symbolNum - terminatorNum }

    /** `IS_TERMINATOR`: the stack-bottom and empty symbols included. */
    predicate IsTerminator(s: Symbol) { 0 <= s < terminatorNum }

    /** `IS_NORMAL_TERMINATOR`: neither the stack-bottom nor the empty symbol. */
    predicate IsNormalTerminator(s: Symbol) { 0 <= s < terminatorNum - 2 }

    /** `IS_SYNTAX_VARIABLE`. */
    predicate IsVariable(s: Symbol) { terminatorNum <= s < symbolNum }

    predicate IsSymbol(s: Symbol) { 0 <= s < symbolNum }

    predicate AllSymbols(w: seq<Symbol>) { forall k :: 0 <= k < |w| ==> IsSymbol(w[k]) }

    /** A production the analyses can read: a variable on the left and a
        non-empty right side of known symbols (`get_all_firsts` reads
        `right[0]` unguarded). */
    predicate ProductionOk(p: Production)
    {
      IsVariable(p.left) && |p.right| > 0 && AllSymbols(p.right)
    }

    predicate WellFormed()
    {
      2 <= terminatorNum <= symbolNum && IsVariable(start)
      && forall i :: 0 <= i < |productions| ==> ProductionOk(productions[i])
    }
  }

  /** A suffix of a string of known symbols holds known symbols. */
  lemma SuffixSymbols(g: Cfg, w: seq<Symbol>, j: int)
    requires g.AllSymbols(w) && 0 <= j <= |w|
    ensures g.AllSymbols(w[j..])
  {
    forall k | 0 <= k < |w| - j
      ensures g.IsSymbol(w[j..][k])
    {
      assert w[j..][k] == w[j + k];
    }
  }

  // ---------------------------------------------------------------------------
  // Nullable variables

  /** `derive_empty` as intended: a terminator derives empty exactly when it
      is the empty symbol, a variable when its flag is set. */
  predicate DerivesEmptyUnder(g: Cfg, flags: seq<bool>, s: Symbol)
    requires |flags| == g.VariableNum() && g.IsSymbol(s)
  {
    if s < g.terminatorNum then s == g.EmptySymbol() else flags[s - g.terminatorNum]
  }

  /** `string_derive_empty` as intended: every symbol derives empty. */
  predicate AllDeriveEmptyUnder(g: Cfg, flags: seq<bool>, w: seq<Symbol>)
    requires |flags| == g.VariableNum() && g.AllSymbols(w)
  {
    forall k :: 0 <= k < |w| ==> DerivesEmptyUnder(g, flags, w[k])
  }

  /** Production i flags its left side if its right side derives empty. */
  predicate NullableClosedAt(g: Cfg, flags: seq<bool>, i: int)
    requires g.WellFormed() && |flags| == g.VariableNum() && 0 <= i < |g.productions|
  {
    assert g.ProductionOk(g.productions[i]);
    AllDeriveEmptyUnder(g, flags, g.productions[i].right) ==> flags[g.productions[i].left - g.terminatorNum]
  }

  /** Every production whose right side derives empty flags its left side. */
  predicate NullableClosed(g: Cfg, flags: seq<bool>)
    requires g.WellFormed() && |flags| == g.VariableNum()
  {
    forall i :: 0 <= i < |g.productions| ==> NullableClosedAt(g, flags, i)
  }

  /** Pointwise implication of two flag vectors. */
  predicate Below(a: seq<bool>, b: seq<bool>)
    requires |a| == |b|
  {
    forall i :: 0 <= i < |a| && a[i] ==> b[i]
  }

  /** No flag is set that some closed flag vector leaves clear. */
  ghost predicate BelowEveryNullableClosed(g: Cfg, flags: seq<bool>)
    requires g.WellFormed() && |flags| == g.VariableNum()
  {
    forall f: seq<bool> :: |f| == g.VariableNum() && NullableClosed(g, f) ==> Below(flags, f)
  }

  /** The nullable flags of the grammar: the least closed flag vector. */
  ghost predicate IsLeastNullable(g: Cfg, flags: seq<bool>)
    requires g.WellFormed()
  {
    |flags| == g.VariableNum() && NullableClosed(g, flags) && BelowEveryNullableClosed(g, flags)
  }

  /** A variable derives the empty symbol: every closed flag vector flags it. */
  ghost predicate Nullable(g: Cfg, s: Symbol)
    requires g.WellFormed()
  {
    g.IsVariable(s) &&
    forall f: seq<bool> :: |f| == g.VariableNum() && NullableClosed(g, f) ==> f[s - g.terminatorNum]
  }

  lemma DerivesEmptyMonotone(g: Cfg, a: seq<bool>, b: seq<bool>, w: seq<Symbol>)
    requires |a| == |b| == g.VariableNum() && g.AllSymbols(w)
    requires Below(a, b) && AllDeriveEmptyUnder(g, a, w)
    ensures AllDeriveEmptyUnder(g, b, w)
  {
    forall k | 0 <= k < |w|
      ensures DerivesEmptyUnder(g, b, w[k])
    {
      assert DerivesEmptyUnder(g, a, w[k]);
    }
  }

  /** The all-clear vector is below every closed vector. */
  lemma AllClearIsBelow(g: Cfg, flags: seq<bool>)
    requires g.WellFormed() && |flags| == g.VariableNum()
    requires forall i :: 0 <= i < |flags| ==> !flags[i]
    ensures BelowEveryNullableClosed(g, flags)
  {
  }

  /** Flagging the left side of a production whose right side derives empty
      under flags keeps flags below every closed vector. */
  lemma {:induction false} NullableStepSound(g: Cfg, flags: seq<bool>, i: int)
    requires g.WellFormed() && |flags| == g.VariableNum() && 0 <= i < |g.productions|
    requires BelowEveryNullableClosed(g, flags)
    requires AllDeriveEmptyUnder(g, flags, g.productions[i].right)
    ensures BelowEveryNullableClosed(g, flags[g.productions[i].left - g.terminatorNum := true])
  {
    var p := g.productions[i];
    assert g.ProductionOk(p);
    forall f: seq<bool> | |f| == g.VariableNum() && NullableClosed(g, f)
      ensures Below(flags[p.left - g.terminatorNum := true], f)
    {
      assert Below(flags, f);
      DerivesEmptyMonotone(g, flags, f, p.right);
      assert NullableClosedAt(g, f, i);
    }
  }

  /** The least closed vector is unique. */
  lemma LeastNullableIsUnique(g: Cfg, a: seq<bool>, b: seq<bool>)
    requires g.WellFormed() && IsLeastNullable(g, a) && IsLeastNullable(g, b)
    ensures a == b
  {
    assert Below(a, b) && Below(b, a);
  }

  /** The least vector flags exactly the nullable variables. */
  lemma {:induction false} LeastNullableMeansNullable(g: Cfg, flags: seq<bool>, s: Symbol)
    requires g.WellFormed() && IsLeastNullable(g, flags) && g.IsVariable(s)
    ensures flags[s - g.terminatorNum] <==> Nullable(g, s)
  {
    if flags[s - g.terminatorNum] {
      forall f: seq<bool> | |f| == g.VariableNum() && NullableClosed(g, f)
        ensures f[s - g.terminatorNum]
      {
        assert Below(flags, f);
      }
    }
  }

  /** Under the least flags, a symbol derives empty exactly when it is the
      empty symbol or a nullable variable. */
  lemma DerivesEmptyMeansNullable(g: Cfg, flags: seq<bool>, s: Symbol)
    requires g.WellFormed() && IsLeastNullable(g, flags) && g.IsSymbol(s)
    ensures DerivesEmptyUnder(g, flags, s) <==> s == g.EmptySymbol() || Nullable(g, s)
  {
    if g.IsVariable(s) {
      LeastNullableMeansNullable(g, flags, s);
    }
  }

  /** Under the least flags, a string derives empty exactly when each of its
      symbols is the empty symbol or a nullable variable; the empty string
      does. */
  lemma AllDeriveEmptyMeansNullable(g: Cfg, flags: seq<bool>, w: seq<Symbol>)
    requires g.WellFormed() && IsLeastNullable(g, flags) && g.AllSymbols(w)
    ensures AllDeriveEmptyUnder(g, flags, w) <==>
            forall k :: 0 <= k < |w| ==> w[k] == g.EmptySymbol() || Nullable(g, w[k])
  {
    forall k | 0 <= k < |w|
      ensures DerivesEmptyUnder(g, flags, w[k]) <==> w[k] == g.EmptySymbol() || Nullable(g, w[k])
    {
      DerivesEmptyMeansNullable(g, flags, w[k]);
    }
  }

  /** s rewrites to a string of empty symbols by a derivation tree of height
      at most k: s is the empty symbol, or a variable with a production each
      of whose right-side symbols does so within height k - 1. */
  ghost predicate DerivesEmptyWithin(g: Cfg, s: Symbol, k: nat)
    decreases k
  {
    s == g.EmptySymbol()
    || (k > 0 && g.IsVariable(s)
        && exists i :: 0 <= i < |g.productions| && g.productions[i].left == s
             && forall j :: 0 <= j < |g.productions[i].right| ==>
                  DerivesEmptyWithin(g, g.productions[i].right[j], k - 1))
  }

  /** s derives the empty symbol by some derivation. */
  ghost predicate DerivesEmpty(g: Cfg, s: Symbol)
  {
    exists k: nat :: DerivesEmptyWithin(g, s, k)
  }

  /** A derivation within height k is also one within any larger height. */
  lemma {:induction false} DerivesEmptyWithinLift(g: Cfg, s: Symbol, k: nat, m: nat)
    requires k <= m && DerivesEmptyWithin(g, s, k)
    ensures DerivesEmptyWithin(g, s, m)
    decreases k
  {
    if s != g.EmptySymbol() {
      var i :| 0 <= i < |g.productions| && g.productions[i].left == s
               && forall j :: 0 <= j < |g.productions[i].right| ==>
                    DerivesEmptyWithin(g, g.productions[i].right[j], k - 1);
      forall j | 0 <= j < |g.productions[i].right|
        ensures DerivesEmptyWithin(g, g.productions[i].right[j], m - 1)
      {
        DerivesEmptyWithinLift(g, g.productions[i].right[j], k - 1, m - 1);
      }
    }
  }

  /** Every closed flag vector flags what a derivation rewrites to empty. */
  lemma {:induction false} DerivationIsFlagged(g: Cfg, f: seq<bool>, s: Symbol, k: nat)
    requires g.WellFormed() && |f| == g.VariableNum() && NullableClosed(g, f)
    requires g.IsSymbol(s) && DerivesEmptyWithin(g, s, k)
    ensures DerivesEmptyUnder(g, f, s)
    decreases k
  {
    if s != g.EmptySymbol() {
      var i :| 0 <= i < |g.productions| && g.productions[i].left == s
               && forall j :: 0 <= j < |g.productions[i].right| ==>
                    DerivesEmptyWithin(g, g.productions[i].right[j], k - 1);
      var p := g.productions[i];
      assert g.ProductionOk(p);
      forall j | 0 <= j < |p.right|
        ensures DerivesEmptyUnder(g, f, p.right[j])
      {
        DerivationIsFlagged(g, f, p.right[j], k - 1);
      }
      assert NullableClosedAt(g, f, i);
    }
  }

  /** w[0 .. n-1] each derive empty within height m. */
  ghost predicate AllWithin(g: Cfg, w: seq<Symbol>, n: nat, m: nat)
    requires n <= |w|
  {
    forall j :: 0 <= j < n ==> DerivesEmptyWithin(g, w[j], m)
  }

  /** Symbols w[0 .. n-1] that each derive empty do so within one common
      height. */
  lemma {:induction false} CommonHeight(g: Cfg, w: seq<Symbol>, n: nat)
    requires n <= |w| && forall j :: 0 <= j < |w| ==> DerivesEmpty(g, w[j])
    ensures exists m: nat :: AllWithin(g, w, n, m)
  {
    if n == 0 {
      assert AllWithin(g, w, 0, 0);
    } else {
      CommonHeight(g, w, n - 1);
      var m: nat :| AllWithin(g, w, n - 1, m);
      assert DerivesEmpty(g, w[n - 1]);
      var k: nat :| DerivesEmptyWithin(g, w[n - 1], k);
      var top: nat := if m < k then k else m;
      forall j | 0 <= j < n
        ensures DerivesEmptyWithin(g, w[j], top)
      {
        if j < n - 1 {
          DerivesEmptyWithinLift(g, w[j], m, top);
        } else {
          DerivesEmptyWithinLift(g, w[j], k, top);
        }
      }
      assert AllWithin(g, w, n, top);
    }
  }

  /** Production i keeps the derivable-empty vector closed. */
  lemma {:induction false} DerivableIsClosedAt(g: Cfg, f: seq<bool>, i: int)
    requires g.WellFormed() && |f| == g.VariableNum() && 0 <= i < |g.productions|
    requires forall v :: 0 <= v < |f| ==> (f[v] <==> DerivesEmpty(g, v + g.terminatorNum))
    ensures NullableClosedAt(g, f, i)
  {
    var p := g.productions[i];
    assert g.ProductionOk(p);
    if AllDeriveEmptyUnder(g, f, p.right) {
      forall j | 0 <= j < |p.right|
        ensures DerivesEmpty(g, p.right[j])
      {
        assert DerivesEmptyUnder(g, f, p.right[j]);
        if p.right[j] == g.EmptySymbol() {
          assert DerivesEmptyWithin(g, p.right[j], 0);
        } else {
          assert f[p.right[j] - g.terminatorNum];
        }
      }
      CommonHeight(g, p.right, |p.right|);
      var m: nat :| AllWithin(g, p.right, |p.right|, m);
      assert DerivesEmptyWithin(g, p.left, m + 1);
      assert f[p.left - g.terminatorNum];
    }
  }

  /** The derivable-empty variables form a closed flag vector. */
  lemma {:induction false} DerivableIsClosed(g: Cfg, f: seq<bool>)
    requires g.WellFormed() && |f| == g.VariableNum()
    requires forall v :: 0 <= v < |f| ==> (f[v] <==> DerivesEmpty(g, v + g.terminatorNum))
    ensures NullableClosed(g, f)
  {
    forall i | 0 <= i < |g.productions|
      ensures NullableClosedAt(g, f, i)
    {
      DerivableIsClosedAt(g, f, i);
    }
  }

  /** Nullable, the least-solution meaning the analysis computes, agrees with
      the derivation meaning: a variable is nullable exactly when some
      derivation rewrites it to a string of empty symbols. */
  lemma {:induction false} NullableIffDerivesEmpty(g: Cfg, s: Symbol)
    requires g.WellFormed() && g.IsVariable(s)
    ensures Nullable(g, s) <==> DerivesEmpty(g, s)
  {
    if DerivesEmpty(g, s) {
      var k: nat :| DerivesEmptyWithin(g, s, k);
      forall f: seq<bool> | |f| == g.VariableNum() && NullableClosed(g, f)
        ensures f[s - g.terminatorNum]
      {
        DerivationIsFlagged(g, f, s, k);
      }
    }
    if Nullable(g, s) {
      var f := seq(g.VariableNum(), v => DerivesEmpty(g, v + g.terminatorNum));
      DerivableIsClosed(g, f);
      assert f[s - g.terminatorNum];
    }
  }

  /** A variable with a production whose right side is exactly the empty
      symbol is nullable. */
  lemma {:induction false} EmptyProductionIsNullable(g: Cfg, i: int)
    requires g.WellFormed() && 0 <= i < |g.productions|
    requires g.productions[i].right == [g.EmptySymbol()]
    ensures Nullable(g, g.productions[i].left)
  {
    assert g.ProductionOk(g.productions[i]);
    forall f: seq<bool> | |f| == g.VariableNum() && NullableClosed(g, f)
      ensures f[g.productions[i].left - g.terminatorNum]
    {
      assert DerivesEmptyUnder(g, f, g.productions[i].right[0]);
      assert AllDeriveEmptyUnder(g, f, g.productions[i].right);
      assert NullableClosedAt(g, f, i);
    }
  }

  /** A right side holding a terminator other than the empty symbol (a
      normal terminator or the stack bottom) does not derive empty under any
      flags. */
  lemma TerminatorBlocksEmpty(g: Cfg, flags: seq<bool>, w: seq<Symbol>, k: int)
    requires |flags| == g.VariableNum() && g.AllSymbols(w) && 0 <= k < |w|
    requires g.IsTerminator(w[k]) && w[k] != g.EmptySymbol()
    ensures !AllDeriveEmptyUnder(g, flags, w)
  {
    assert !DerivesEmptyUnder(g, flags, w[k]);
  }

  /** A variable all of whose productions contain a terminator other than the
      empty symbol is not nullable: such a production never flags its left
      side by itself. */
  lemma {:induction false} TerminatedVariableIsNotNullable(g: Cfg, a: Symbol)
    requires g.WellFormed() && g.IsVariable(a)
    requires forall i :: 0 <= i < |g.productions| && g.productions[i].left == a ==>
      exists k :: 0 <= k < |g.productions[i].right| && g.IsTerminator(g.productions[i].right[k])
                    && g.productions[i].right[k] != g.EmptySymbol()
    ensures !Nullable(g, a)
  {
    var v := g.VariableNum();
    var f := seq(v, j => j != a - g.terminatorNum);
    assert f[a - g.terminatorNum] == false;
    forall i | 0 <= i < |g.productions|
      ensures NullableClosedAt(g, f, i)
    {
      assert g.ProductionOk(g.productions[i]);
      if g.productions[i].left == a {
        var k :| 0 <= k < |g.productions[i].right| && g.IsTerminator(g.productions[i].right[k])
                 && g.productions[i].right[k] != g.EmptySymbol();
        TerminatorBlocksEmpty(g, f, g.productions[i].right, k);
      }
    }
    assert NullableClosed(g, f);
  }

  // ---------------------------------------------------------------------------
  // FIRST sets

  predicate FirstVectorOk(g: Cfg, fs: seq<set<Symbol>>)
  {
    |fs| == g.symbolNum
  }

  /** What production k contributes to the initial FIRST set of variable s:
      its first symbol when that is a normal terminator, the empty symbol
      when its right side is exactly the empty symbol. */
  function InitialContribution(g: Cfg, s: Symbol, p: Production): set<Symbol>
    requires |p.right| > 0
  {
    if p.left != s then {}
    else if g.IsNormalTerminator(p.right[0]) then {p.right[0]}
    else if p.right == [g.EmptySymbol()] then {g.EmptySymbol()}
    else {}
  }

  /** The initial FIRST set of variable s from productions 0 .. k-1. */
  function InitialVariableFirst(g: Cfg, s: Symbol, k: nat): set<Symbol>
    requires g.WellFormed() && k <= |g.productions|
  {
    if k == 0 then {}
    else
      assert g.ProductionOk(g.productions[k - 1]);
      InitialVariableFirst(g, s, k - 1) + InitialContribution(g, s, g.productions[k - 1])
  }

  /** The FIRST sets before the fixpoint loop: {t} for a terminator t. */
  function InitialFirst(g: Cfg, s: Symbol): set<Symbol>
    requires g.WellFormed()
  {
    if s < g.terminatorNum then {s} else InitialVariableFirst(g, s, |g.productions|)
  }

  /** FIRST of the suffix r[i..] as the loop intends it: FIRST of each symbol
      without the empty symbol, up to and including the first one that does
      not derive empty; the empty symbol itself when all of them do. */
  function PrefixFirst(g: Cfg, nullable: seq<bool>, fs: seq<set<Symbol>>, r: seq<Symbol>, i: nat): set<Symbol>
    requires |nullable| == g.VariableNum() && FirstVectorOk(g, fs) && g.AllSymbols(r) && i <= |r|
    decreases |r| - i
  {
    if i == |r| then {g.EmptySymbol()}
    else
      (fs[r[i]] - {g.EmptySymbol()}) +
      (if DerivesEmptyUnder(g, nullable, r[i]) then PrefixFirst(g, nullable, fs, r, i + 1) else {})
  }

  /** What one pass step adds to FIRST(left) for right side r: nothing
      unless r starts with a variable. */
  function FirstContribution(g: Cfg, nullable: seq<bool>, fs: seq<set<Symbol>>, r: seq<Symbol>): set<Symbol>
    requires |nullable| == g.VariableNum() && FirstVectorOk(g, fs) && g.AllSymbols(r) && |r| > 0
  {
    if g.IsVariable(r[0]) then PrefixFirst(g, nullable, fs, r, 0) else {}
  }

  /** FIRST of the left side of production i holds what the production
      contributes. */
  predicate FirstClosedAt(g: Cfg, nullable: seq<bool>, fs: seq<set<Symbol>>, i: int)
    requires g.WellFormed() && |nullable| == g.VariableNum() && FirstVectorOk(g, fs)
    requires 0 <= i < |g.productions|
  {
    assert g.ProductionOk(g.productions[i]);
    FirstContribution(g, nullable, fs, g.productions[i].right) <= fs[g.productions[i].left]
  }

  predicate FirstClosed(g: Cfg, nullable: seq<bool>, fs: seq<set<Symbol>>)
    requires g.WellFormed() && |nullable| == g.VariableNum()
  {
    FirstVectorOk(g, fs)
    && (forall s :: 0 <= s < g.symbolNum ==> InitialFirst(g, s) <= fs[s])
    && (forall i :: 0 <= i < |g.productions| ==> FirstClosedAt(g, nullable, fs, i))
  }

  /** Pointwise inclusion of two vectors of sets. */
  predicate SetsBelow(a: seq<set<Symbol>>, b: seq<set<Symbol>>)
  {
    |a| == |b| && forall i :: 0 <= i < |a| ==> a[i] <= b[i]
  }

  ghost predicate BelowEveryFirstClosed(g: Cfg, nullable: seq<bool>, fs: seq<set<Symbol>>)
    requires g.WellFormed() && |nullable| == g.VariableNum()
  {
    forall h: seq<set<Symbol>> :: FirstClosed(g, nullable, h) ==> SetsBelow(fs, h)
  }

  /** The FIRST sets: the least closed vector. */
  ghost predicate IsLeastFirst(g: Cfg, nullable: seq<bool>, fs: seq<set<Symbol>>)
    requires g.WellFormed() && |nullable| == g.VariableNum()
  {
    FirstClosed(g, nullable, fs) && BelowEveryFirstClosed(g, nullable, fs)
  }

  lemma {:induction false} PrefixFirstMonotone(g: Cfg, nullable: seq<bool>, a: seq<set<Symbol>>,
                                               b: seq<set<Symbol>>, r: seq<Symbol>, i: nat)
    requires |nullable| == g.VariableNum() && FirstVectorOk(g, a) && SetsBelow(a, b)
    requires g.AllSymbols(r) && i <= |r|
    ensures PrefixFirst(g, nullable, a, r, i) <= PrefixFirst(g, nullable, b, r, i)
    decreases |r| - i
  {
    if i < |r| {
      PrefixFirstMonotone(g, nullable, a, b, r, i + 1);
      assert a[r[i]] <= b[r[i]];
    }
  }

  lemma {:induction false} FirstContributionMonotone(g: Cfg, nullable: seq<bool>, a: seq<set<Symbol>>,
                                                     b: seq<set<Symbol>>, r: seq<Symbol>)
    requires |nullable| == g.VariableNum() && FirstVectorOk(g, a) && SetsBelow(a, b)
    requires g.AllSymbols(r) && |r| > 0
    ensures FirstContribution(g, nullable, a, r) <= FirstContribution(g, nullable, b, r)
  {
    PrefixFirstMonotone(g, nullable, a, b, r, 0);
  }

  /** Adding what production i contributes keeps fs below every closed vector. */
  lemma {:induction false} FirstStepSound(g: Cfg, nullable: seq<bool>, fs: seq<set<Symbol>>, i: int)
    requires g.WellFormed() && |nullable| == g.VariableNum() && FirstVectorOk(g, fs)
    requires 0 <= i < |g.productions| && BelowEveryFirstClosed(g, nullable, fs)
    ensures g.ProductionOk(g.productions[i])
    ensures BelowEveryFirstClosed(g, nullable,
      fs[g.productions[i].left := fs[g.productions[i].left] + FirstContribution(g, nullable, fs, g.productions[i].right)])
  {
    assert g.ProductionOk(g.productions[i]);
    var p := g.productions[i];
    var c := FirstContribution(g, nullable, fs, p.right);
    forall h: seq<set<Symbol>> | FirstClosed(g, nullable, h)
      ensures SetsBelow(fs[p.left := fs[p.left] + c], h)
    {
      assert SetsBelow(fs, h);
      FirstContributionMonotone(g, nullable, fs, h, p.right);
      assert FirstClosedAt(g, nullable, h, i);
    }
  }

  /** FIRST of a suffix holds only terminators when every FIRST set does. */
  lemma {:induction false} PrefixFirstElementsBelow(g: Cfg, nullable: seq<bool>, fs: seq<set<Symbol>>,
                                                   r: seq<Symbol>, i: nat)
    requires |nullable| == g.VariableNum() && FirstVectorOk(g, fs) && g.AllSymbols(r) && i <= |r|
    requires 1 <= g.terminatorNum && ElementsBelow(fs, g.terminatorNum)
    ensures forall t :: t in PrefixFirst(g, nullable, fs, r, i) ==> 0 <= t < g.terminatorNum
    decreases |r| - i
  {
    if i < |r| {
      PrefixFirstElementsBelow(g, nullable, fs, r, i + 1);
    }
  }

  /** The initial sets are below every closed vector. */
  lemma InitialFirstIsBelow(g: Cfg, nullable: seq<bool>, fs: seq<set<Symbol>>)
    requires g.WellFormed() && |nullable| == g.VariableNum()
    requires |fs| == g.symbolNum && forall s :: 0 <= s < g.symbolNum ==> fs[s] == InitialFirst(g, s)
    ensures BelowEveryFirstClosed(g, nullable, fs)
  {
  }

  /** Initial FIRST sets of variables hold only normal terminators and the
      empty symbol. */
  lemma {:induction false} InitialVariableFirstTerminators(g: Cfg, s: Symbol, k: nat)
    requires g.WellFormed() && k <= |g.productions|
    ensures forall t :: t in InitialVariableFirst(g, s, k) ==> g.IsTerminator(t)
  {
    if k > 0 {
      InitialVariableFirstTerminators(g, s, k - 1);
    }
  }

  /** The initial contribution of a production is part of the initial set. */
  lemma {:induction false} InitialVariableFirstHas(g: Cfg, s: Symbol, k: nat, i: int)
    requires g.WellFormed() && 0 <= i < k <= |g.productions|
    ensures g.ProductionOk(g.productions[i])
    ensures InitialContribution(g, s, g.productions[i]) <= InitialVariableFirst(g, s, k)
  {
    assert g.ProductionOk(g.productions[i]);
    if i < k - 1 {
      InitialVariableFirstHas(g, s, k - 1, i);
    }
  }

  /** A production starting with a normal terminator t puts t in FIRST of its
      left side. */
  lemma LeadingTerminatorIsFirst(g: Cfg, nullable: seq<bool>, fs: seq<set<Symbol>>, i: int)
    requires g.WellFormed() && |nullable| == g.VariableNum() && FirstClosed(g, nullable, fs)
    requires 0 <= i < |g.productions| && g.IsNormalTerminator(g.productions[i].right[0])
    ensures g.productions[i].right[0] in fs[g.productions[i].left]
  {
    var p := g.productions[i];
    InitialVariableFirstHas(g, p.left, |g.productions|, i);
    assert g.ProductionOk(p);
    assert InitialFirst(g, p.left) <= fs[p.left];
  }

  /** In a closed vector FIRST(t) holds t for every terminator t; in the
      least one it is exactly {t}, since shrinking it to {t} stays closed. */
  lemma {:induction false} TerminatorFirstIsItself(g: Cfg, nullable: seq<bool>, fs: seq<set<Symbol>>, t: Symbol)
    requires g.WellFormed() && |nullable| == g.VariableNum() && IsLeastFirst(g, nullable, fs)
    requires g.IsTerminator(t)
    ensures fs[t] == {t}
  {
    assert InitialFirst(g, t) <= fs[t];
    var h := fs[t := {t}];
    assert SetsBelow(h, fs);
    forall s | 0 <= s < g.symbolNum
      ensures InitialFirst(g, s) <= h[s]
    {
      assert InitialFirst(g, s) <= fs[s];
    }
    forall i | 0 <= i < |g.productions|
      ensures FirstClosedAt(g, nullable, h, i)
    {
      assert g.ProductionOk(g.productions[i]);
      assert FirstClosedAt(g, nullable, fs, i);
      FirstContributionMonotone(g, nullable, h, fs, g.productions[i].right);
    }
    assert FirstClosed(g, nullable, h);
    assert SetsBelow(fs, h);
  }

  // ---------------------------------------------------------------------------
  // Termination measures of the fixpoint loops

  /** The flags still clear. */
  function FalseSet(flags: seq<bool>): set<int>
  {
    set i | 0 <= i < |flags| && !flags[i]
  }

  lemma FalseSetShrinks(a: seq<bool>, b: seq<bool>, i: int)
    requires |a| == |b| && Below(a, b) && 0 <= i < |a| && !a[i] && b[i]
    ensures FalseSet(b) < FalseSet(a)
  {
    assert i in FalseSet(a) - FalseSet(b);
  }

  /** The (index, element) pairs of a vector of sets. */
  function Pairs(vs: seq<set<Symbol>>): set<(int, Symbol)>
  {
    set s, t | 0 <= s < |vs| && t in vs[s] :: (s, t)
  }

  function Grid(rows: int, cols: int): set<(int, Symbol)>
  {
    set s, t | 0 <= s < rows && 0 <= t < cols :: (s, t)
  }

  /** Every element of every set is in 0 .. cols-1. */
  predicate ElementsBelow(vs: seq<set<Symbol>>, cols: int)
  {
    forall s :: 0 <= s < |vs| ==> forall t :: t in vs[s] ==> 0 <= t < cols
  }

  lemma PairsWithinGrid(vs: seq<set<Symbol>>, cols: int)
    requires ElementsBelow(vs, cols)
    ensures Pairs(vs) <= Grid(|vs|, cols)
  {
    forall p | p in Pairs(vs)
      ensures p in Grid(|vs|, cols)
    {
      var s, t :| 0 <= s < |vs| && t in vs[s] && p == (s, t);
      assert 0 <= t < cols;
    }
  }

  lemma PairsMonotone(a: seq<set<Symbol>>, b: seq<set<Symbol>>)
    requires SetsBelow(a, b)
    ensures Pairs(a) <= Pairs(b)
  {
    forall p | p in Pairs(a)
      ensures p in Pairs(b)
    {
      var s, t :| 0 <= s < |a| && t in a[s] && p == (s, t);
      assert t in b[s];
    }
  }

  lemma PairsGrow(a: seq<set<Symbol>>, b: seq<set<Symbol>>, s: int, t: Symbol)
    requires SetsBelow(a, b) && 0 <= s < |a| && t in b[s] && t !in a[s]
    ensures Pairs(a) < Pairs(b)
  {
    PairsMonotone(a, b);
    assert (s, t) in Pairs(b);
    assert (s, t) !in Pairs(a);
  }

  /** What the grid still leaves to add shrinks when the pairs grow. */
  lemma GridRestShrinks(a: seq<set<Symbol>>, b: seq<set<Symbol>>, cols: int)
    requires SetsBelow(a, b) && Pairs(a) < Pairs(b) && ElementsBelow(b, cols)
    ensures Grid(|b|, cols) - Pairs(b) < Grid(|a|, cols) - Pairs(a)
  {
    PairsWithinGrid(b, cols);
    var p :| p in Pairs(b) && p !in Pairs(a);
    assert p in Grid(|a|, cols) - Pairs(a);
  }

  /** A set without elements is the empty set. */
  lemma NoElementMeansEmpty(s: set<Symbol>)
    ensures (forall x :: x !in s) ==> s == {}
  {
    if forall x :: x !in s {
      assert forall x :: x in s <==> x in {};
    }
  }

  /** A subset with as many elements is the whole set. */
  lemma SubsetSameSize(x: set<Symbol>, y: set<Symbol>)
    requires x <= y && |x| == |y|
    ensures x == y
  {
    assert y == x + (y - x);
    assert |y - x| == 0;
  }

  // ---------------------------------------------------------------------------
  // FIRST of a symbol string

  /** `string_first` as intended: FIRST of each symbol without the empty
      symbol, as long as the symbols before have the empty symbol in their
      FIRST; the empty symbol itself when every symbol has it. The empty
      string has the empty FIRST set, as in the C++ code. */
  function StringFirst(g: Cfg, fs: seq<set<Symbol>>, w: seq<Symbol>): set<Symbol>
    requires FirstVectorOk(g, fs) && g.AllSymbols(w)
    decreases |w|
  {
    if |w| == 0 then {}
    else
      (fs[w[0]] - {g.EmptySymbol()}) +
      (if g.EmptySymbol() in fs[w[0]] then (if |w| == 1 then {g.EmptySymbol()} else StringFirst(g, fs, w[1..])) else {})
  }

  /** The empty symbol is in FIRST of a string exactly when it is in FIRST of
      every symbol of a non-empty string. */
  lemma {:induction false} StringFirstHasEmpty(g: Cfg, fs: seq<set<Symbol>>, w: seq<Symbol>)
    requires FirstVectorOk(g, fs) && g.AllSymbols(w)
    ensures g.EmptySymbol() in StringFirst(g, fs, w) <==>
            |w| > 0 && forall k :: 0 <= k < |w| ==> g.EmptySymbol() in fs[w[k]]
    decreases |w|
  {
    if |w| > 1 {
      StringFirstHasEmpty(g, fs, w[1..]);
      if g.EmptySymbol() in fs[w[0]] && forall k :: 0 <= k < |w| - 1 ==> g.EmptySymbol() in fs[w[1..][k]] {
        forall k | 0 <= k < |w|
          ensures g.EmptySymbol() in fs[w[k]]
        {
          if k > 0 {
            assert w[k] == w[1..][k - 1];
          }
        }
      }
      if forall k :: 0 <= k < |w| ==> g.EmptySymbol() in fs[w[k]] {
        forall k | 0 <= k < |w| - 1
          ensures g.EmptySymbol() in fs[w[1..][k]]
        {
          assert w[1..][k] == w[k + 1];
        }
      }
    }
  }

  /** Elements of FIRST of a string come from FIRST of its symbols. */
  lemma {:induction false} StringFirstFromSymbols(g: Cfg, fs: seq<set<Symbol>>, w: seq<Symbol>, t: Symbol)
    requires FirstVectorOk(g, fs) && g.AllSymbols(w) && t in StringFirst(g, fs, w)
    ensures exists k :: 0 <= k < |w| && t in fs[w[k]]
    decreases |w|
  {
    if t !in fs[w[0]] && |w| > 1 {
      StringFirstFromSymbols(g, fs, w[1..], t);
      var k :| 0 <= k < |w| - 1 && t in fs[w[1..][k]];
      assert w[1..][k] == w[k + 1];
    }
  }

  // ---------------------------------------------------------------------------
  // FOLLOW sets

  /** The FOLLOW condition at position j of production i, for B = right[j] a
      variable and A its left side: FIRST of what follows B, without the empty
      symbol, is in FOLLOW(B); and FOLLOW(A) is too when B is last or, A and B
      differing, everything after B derives empty. */
  predicate FollowAt(g: Cfg, nullable: seq<bool>, fs: seq<set<Symbol>>, fo: seq<set<Symbol>>, i: int, j: int)
    requires g.WellFormed() && |nullable| == g.VariableNum() && FirstVectorOk(g, fs)
    requires |fo| == g.VariableNum() && 0 <= i < |g.productions| && 0 <= j < |g.productions[i].right|
    requires g.IsVariable(g.productions[i].right[j])
  {
    assert g.ProductionOk(g.productions[i]);
    var p := g.productions[i];
    var a := p.left - g.terminatorNum;
    var b := p.right[j] - g.terminatorNum;
    var suffix := p.right[j + 1..];
    SuffixSymbols(g, p.right, j + 1);
    (StringFirst(g, fs, suffix) - {g.EmptySymbol()}) <= fo[b]
    && ((j == |p.right| - 1 || (AllDeriveEmptyUnder(g, nullable, suffix) && a != b)) ==> fo[a] <= fo[b])
  }

  predicate FollowClosed(g: Cfg, nullable: seq<bool>, fs: seq<set<Symbol>>, fo: seq<set<Symbol>>)
    requires g.WellFormed() && |nullable| == g.VariableNum() && FirstVectorOk(g, fs)
  {
    |fo| == g.VariableNum()
    && g.StackBottom() in fo[g.start - g.terminatorNum]
    && forall i, j ::
         0 <= i < |g.productions| && 0 <= j < |g.productions[i].right| && g.IsVariable(g.productions[i].right[j])
         ==> FollowAt(g, nullable, fs, fo, i, j)
  }

  ghost predicate BelowEveryFollowClosed(g: Cfg, nullable: seq<bool>, fs: seq<set<Symbol>>, fo: seq<set<Symbol>>)
    requires g.WellFormed() && |nullable| == g.VariableNum() && FirstVectorOk(g, fs)
  {
    forall h: seq<set<Symbol>> :: FollowClosed(g, nullable, fs, h) ==> SetsBelow(fo, h)
  }

  /** The FOLLOW sets: the least closed vector. */
  ghost predicate IsLeastFollow(g: Cfg, nullable: seq<bool>, fs: seq<set<Symbol>>, fo: seq<set<Symbol>>)
    requires g.WellFormed() && |nullable| == g.VariableNum() && FirstVectorOk(g, fs)
  {
    FollowClosed(g, nullable, fs, fo) && BelowEveryFollowClosed(g, nullable, fs, fo)
  }

  /** For a production A -> ... B, FOLLOW(A) is part of FOLLOW(B). */
  lemma FollowOfLeftInFollowOfLast(g: Cfg, nullable: seq<bool>, fs: seq<set<Symbol>>, fo: seq<set<Symbol>>, i: int)
    requires g.WellFormed() && |nullable| == g.VariableNum() && FirstVectorOk(g, fs)
    requires FollowClosed(g, nullable, fs, fo) && 0 <= i < |g.productions|
    requires g.IsVariable(g.productions[i].right[|g.productions[i].right| - 1])
    ensures g.ProductionOk(g.productions[i])
    ensures fo[g.productions[i].left - g.terminatorNum] <= fo[g.productions[i].right[|g.productions[i].right| - 1] - g.terminatorNum]
  {
    assert g.ProductionOk(g.productions[i]);
    assert FollowAt(g, nullable, fs, fo, i, |g.productions[i].right| - 1);
  }

  /** For a production A -> ... B with everything after B deriving empty
      and A other than B, FOLLOW(A) is part of FOLLOW(B). */
  lemma FollowOfLeftInFollowOfNullableTail(g: Cfg, nullable: seq<bool>, fs: seq<set<Symbol>>,
                                           fo: seq<set<Symbol>>, i: int, j: int)
    requires g.WellFormed() && |nullable| == g.VariableNum() && FirstVectorOk(g, fs)
    requires FollowClosed(g, nullable, fs, fo) && 0 <= i < |g.productions|
    requires 0 <= j < |g.productions[i].right| && g.IsVariable(g.productions[i].right[j])
    requires g.productions[i].left != g.productions[i].right[j]
    requires forall k :: j < k < |g.productions[i].right| ==>
      g.IsSymbol(g.productions[i].right[k]) && DerivesEmptyUnder(g, nullable, g.productions[i].right[k])
    ensures g.ProductionOk(g.productions[i])
    ensures fo[g.productions[i].left - g.terminatorNum] <= fo[g.productions[i].right[j] - g.terminatorNum]
  {
    assert g.ProductionOk(g.productions[i]);
    var suffix := g.productions[i].right[j + 1..];
    forall k | 0 <= k < |suffix|
      ensures DerivesEmptyUnder(g, nullable, suffix[k])
    {
      assert suffix[k] == g.productions[i].right[j + 1 + k];
    }
    assert FollowAt(g, nullable, fs, fo, i, j);
  }

  /** Adding FIRST of what follows B keeps FOLLOW below every closed vector. */
  lemma {:induction false} FollowFirstStepSound(g: Cfg, nullable: seq<bool>, fs: seq<set<Symbol>>,
                                                fo: seq<set<Symbol>>, i: int, j: int)
    requires g.WellFormed() && |nullable| == g.VariableNum() && FirstVectorOk(g, fs)
    requires |fo| == g.VariableNum() && BelowEveryFollowClosed(g, nullable, fs, fo)
    requires 0 <= i < |g.productions| && 0 <= j < |g.productions[i].right|
    requires g.IsVariable(g.productions[i].right[j])
    ensures g.ProductionOk(g.productions[i]) && g.AllSymbols(g.productions[i].right[j + 1..])
    ensures var b := g.productions[i].right[j] - g.terminatorNum;
      BelowEveryFollowClosed(g, nullable, fs,
        fo[b := fo[b] + (StringFirst(g, fs, g.productions[i].right[j + 1..]) - {g.EmptySymbol()})])
  {
    assert g.ProductionOk(g.productions[i]);
    var r := g.productions[i].right;
    SuffixSymbols(g, r, j + 1);
    var b := r[j] - g.terminatorNum;
    var add := StringFirst(g, fs, r[j + 1..]) - {g.EmptySymbol()};
    forall h: seq<set<Symbol>> | FollowClosed(g, nullable, fs, h)
      ensures SetsBelow(fo[b := fo[b] + add], h)
    {
      assert SetsBelow(fo, h);
      assert FollowAt(g, nullable, fs, h, i, j);
    }
  }

  /** Adding FOLLOW(A) to FOLLOW(B) where the condition asks for it keeps
      FOLLOW below every closed vector. */
  lemma {:induction false} FollowInheritStepSound(g: Cfg, nullable: seq<bool>, fs: seq<set<Symbol>>,
                                                  fo: seq<set<Symbol>>, i: int, j: int)
    requires g.WellFormed() && |nullable| == g.VariableNum() && FirstVectorOk(g, fs)
    requires |fo| == g.VariableNum() && BelowEveryFollowClosed(g, nullable, fs, fo)
    requires 0 <= i < |g.productions| && 0 <= j < |g.productions[i].right|
    requires g.IsVariable(g.productions[i].right[j])
    ensures g.ProductionOk(g.productions[i]) && g.AllSymbols(g.productions[i].right[j + 1..])
    ensures var a := g.productions[i].left - g.terminatorNum;
      var b := g.productions[i].right[j] - g.terminatorNum;
      (j == |g.productions[i].right| - 1 ||
       (AllDeriveEmptyUnder(g, nullable, g.productions[i].right[j + 1..]) && a != b)) ==>
      BelowEveryFollowClosed(g, nullable, fs, fo[b := fo[b] + fo[a]])
  {
    assert g.ProductionOk(g.productions[i]);
    var r := g.productions[i].right;
    SuffixSymbols(g, r, j + 1);
    var a := g.productions[i].left - g.terminatorNum;
    var b := r[j] - g.terminatorNum;
    if j == |r| - 1 || (AllDeriveEmptyUnder(g, nullable, r[j + 1..]) && a != b) {
      forall h: seq<set<Symbol>> | FollowClosed(g, nullable, fs, h)
        ensures SetsBelow(fo[b := fo[b] + fo[a]], h)
      {
        assert SetsBelow(fo, h);
        assert FollowAt(g, nullable, fs, h, i, j);
      }
    }
  }

  // ---------------------------------------------------------------------------
  // Augmentation

  /** The text of the production added by augmentation. */
  const AugmentedStartText: string := "SysY"

  /** The augmented grammar: a new start variable numbered N, and the
      production S' -> S put in front of the others. */
  function Augmented(g: Cfg): Cfg
  {
    Cfg(g.terminatorNum, g.symbolNum + 1, g.symbolNum,
        [Production(g.symbolNum, [g.start], AugmentedStartText)] + g.productions)
  }

  /** Augmenting keeps the grammar well formed; the new start symbol is a
      variable that occurs in no right side and on the left of the first
      production only, and every old production follows it unchanged. */
  lemma {:induction false} AugmentedStartIsFresh(g: Cfg)
    requires g.WellFormed()
    ensures var h := Augmented(g);
      h.WellFormed() && h.IsVariable(h.start) && !g.IsSymbol(h.start)
      && |h.productions| == |g.productions| + 1
      && h.productions[0].left == h.start && h.productions[0].right == [g.start]
      && (forall i :: 0 <= i < |g.productions| ==> h.productions[i + 1] == g.productions[i])
      && (forall i :: 1 <= i < |h.productions| ==> h.productions[i].left != h.start)
      && (forall i, k :: 0 <= i < |h.productions| && 0 <= k < |h.productions[i].right| ==>
            h.productions[i].right[k] != h.start)
  {
    var h := Augmented(g);
    forall i | 0 <= i < |h.productions|
      ensures h.ProductionOk(h.productions[i])
      ensures i > 0 ==> h.productions[i].left != h.start
      ensures forall k :: 0 <= k < |h.productions[i].right| ==> h.productions[i].right[k] != h.start
    {
      if i > 0 {
        assert h.productions[i] == g.productions[i - 1];
        assert g.ProductionOk(g.productions[i - 1]);
      }
    }
  }
}
