/** `class Grammer` of src/grammer.cpp over productions already read from the
    grammar file: augmentation, the nullable, FIRST and FOLLOW fixpoint loops
    over arrays updated in place, the queries built on them, and the
    generator of names for the variables that stand for mid-production
    semantic actions. */
module Grammer {
  import opened Wrappers
  import opened GrammarSpec

  // ---------------------------------------------------------------------------
  // Names of generated syntax variables

  /** One decimal digit. */
  function DigitChar(d: nat): char
    requires d < 10
  {
    (48 + d) as char
  }

  /** `to_string` of a non-negative number: its decimal digits. */
  function NatToString(n: nat): string
  {
    if n < 10 then [DigitChar(n)] else NatToString(n / 10) + [DigitChar(n % 10)]
  }

  lemma {:induction false} NatToStringLength(n: nat)
    ensures |NatToString(n)| >= 1
    ensures n >= 10 ==> |NatToString(n)| >= 2
  {
    if n >= 10 {
      NatToStringLength(n / 10);
    }
  }

  /** Different numbers have different decimal renderings. */
  lemma {:induction false} NatToStringInjective(m: nat, n: nat)
    requires NatToString(m) == NatToString(n)
    ensures m == n
  {
    NatToStringLength(m);
    NatToStringLength(n);
    if m >= 10 && n >= 10 {
      var a := NatToString(m);
      assert NatToString(m / 10) == a[..|a| - 1];
      assert NatToString(n / 10) == a[..|a| - 1];
      assert DigitChar(m % 10) == a[|a| - 1] == DigitChar(n % 10);
      NatToStringInjective(m / 10, n / 10);
    } else if m < 10 && n < 10 {
      assert DigitChar(m) == DigitChar(n);
    }
  }

  /** The name given to the n-th generated variable. */
  function GeneratedName(n: nat): string
  {
    "__" + NatToString(n)
  }

  /** Generated names never repeat. */
  lemma GeneratedNamesDistinct(m: nat, n: nat)
    requires m != n
    ensures GeneratedName(m) != GeneratedName(n)
  {
    if GeneratedName(m) == GeneratedName(n) {
      assert NatToString(m) == GeneratedName(m)[2..] == GeneratedName(n)[2..] == NatToString(n);
      NatToStringInjective(m, n);
    }
  }

  /** The static counter behind `generate_a_new_syntax_variable_name_`,
      shared by every call. */
  class NameGenerator {
    var counter: nat

    constructor ()
      ensures counter == 0
    {
      counter := 0;
    }

    /** Returns "__" followed by the counter, then bumps the counter. */
    method Next() returns (name: string)
      modifies this
      ensures name == GeneratedName(old(counter)) && counter == old(counter) + 1
    {
      name := GeneratedName(counter);
      counter := counter + 1;
    }
  }

  /** Two successive calls give different names. */
  method TwoNames(gen: NameGenerator) returns (first: string, second: string)
    modifies gen
    ensures first != second
    ensures gen.counter == old(gen.counter) + 2
  {
    first := gen.Next();
    second := gen.Next();
    GeneratedNamesDistinct(gen.counter - 2, gen.counter - 1);
  }

  // ---------------------------------------------------------------------------
  // The grammar

  /** State of the FOLLOW loop that every step keeps. */
  ghost predicate FollowInvariant(g: Cfg, nullable: seq<bool>, fs: seq<set<Symbol>>, fo: seq<set<Symbol>>)
    requires g.WellFormed() && |nullable| == g.VariableNum() && FirstVectorOk(g, fs)
  {
    |fo| == g.VariableNum()
    && g.StackBottom() in fo[g.start - g.terminatorNum]
    && ElementsBelow(fo, g.terminatorNum)
    && (forall v :: 0 <= v < |fo| ==> g.EmptySymbol() !in fo[v])
    && BelowEveryFollowClosed(g, nullable, fs, fo)
  }

  /** Adding terminators other than the empty symbol to one FOLLOW set keeps
      the loop state, when the result stays below every closed vector. */
  lemma FollowInvariantAdd(g: Cfg, nullable: seq<bool>, fs: seq<set<Symbol>>, fo: seq<set<Symbol>>,
                           b: int, add: set<Symbol>)
    requires g.WellFormed() && |nullable| == g.VariableNum() && FirstVectorOk(g, fs)
    requires FollowInvariant(g, nullable, fs, fo) && 0 <= b < |fo|
    requires forall t :: t in add ==> 0 <= t < g.terminatorNum && t != g.EmptySymbol()
    requires BelowEveryFollowClosed(g, nullable, fs, fo[b := fo[b] + add])
    ensures FollowInvariant(g, nullable, fs, fo[b := fo[b] + add])
  {
    var fo' := fo[b := fo[b] + add];
    forall v | 0 <= v < |fo'|
      ensures g.EmptySymbol() !in fo'[v]
      ensures forall t :: t in fo'[v] ==> 0 <= t < g.terminatorNum
    {
      assert g.EmptySymbol() !in fo[v];
    }
  }

  /** A FOLLOW step that changed nothing shows its position closed. */
  lemma FollowAtFromStep(g: Cfg, nullable: seq<bool>, fs: seq<set<Symbol>>, fo: seq<set<Symbol>>, i: int, j: int)
    requires g.WellFormed() && |nullable| == g.VariableNum() && FirstVectorOk(g, fs) && |fo| == g.VariableNum()
    requires 0 <= i < |g.productions| && 0 <= j < |g.productions[i].right|
    requires g.IsVariable(g.productions[i].right[j])
    requires g.ProductionOk(g.productions[i]) && g.AllSymbols(g.productions[i].right[j + 1..])
    requires var b := g.productions[i].right[j] - g.terminatorNum;
      StringFirst(g, fs, g.productions[i].right[j + 1..]) - {g.EmptySymbol()} <= fo[b]
    requires var a := g.productions[i].left - g.terminatorNum;
      var b := g.productions[i].right[j] - g.terminatorNum;
      (j == |g.productions[i].right| - 1 ||
       (AllDeriveEmptyUnder(g, nullable, g.productions[i].right[j + 1..]) && a != b)) ==> fo[a] <= fo[b]
    ensures FollowAt(g, nullable, fs, fo, i, j)
  {
  }

  /** What position j of production A -> right hands to FOLLOW(B), B =
      right[j]: add is FIRST of the rest of the right side without the empty
      symbol, and inherit says FOLLOW(A) goes in as well, which it does when B
      is last or, A and B differing, the rest derives empty. */
  ghost predicate FollowContribution(g: Cfg, nullable: seq<bool>, fs: seq<set<Symbol>>, i: int, j: int,
                                     add: set<Symbol>, inherit: bool)
    requires g.WellFormed() && |nullable| == g.VariableNum() && FirstVectorOk(g, fs)
    requires 0 <= i < |g.productions| && 0 <= j < |g.productions[i].right|
  {
    var p := g.productions[i];
    assert g.ProductionOk(p);
    SuffixSymbols(g, p.right, j + 1);
    add == StringFirst(g, fs, p.right[j + 1..]) - {g.EmptySymbol()}
    && (inherit <==> (j == |p.right| - 1 || (AllDeriveEmptyUnder(g, nullable, p.right[j + 1..]) && p.left != p.right[j])))
  }

  /** FOLLOW after one step at position j of production i: FIRST of the
      suffix into FOLLOW(B), then FOLLOW(A) as well when inherit is set. */
  function FollowNext(fo: seq<set<Symbol>>, a: int, b: int, add: set<Symbol>, inherit: bool): seq<set<Symbol>>
    requires 0 <= a < |fo| && 0 <= b < |fo|
  {
    var m := fo[b := fo[b] + add];
    if inherit then m[b := m[b] + m[a]] else m
  }

  /** What position j of production i adds to FOLLOW(B) in any case: FIRST
      of the rest of the right side without the empty symbol. */
  ghost function FollowAdd(g: Cfg, fs: seq<set<Symbol>>, i: int, j: int): set<Symbol>
    requires g.WellFormed() && FirstVectorOk(g, fs)
    requires 0 <= i < |g.productions| && 0 <= j < |g.productions[i].right|
  {
    var p := g.productions[i];
    assert g.ProductionOk(p);
    SuffixSymbols(g, p.right, j + 1);
    StringFirst(g, fs, p.right[j + 1..]) - {g.EmptySymbol()}
  }

  /** Whether position j of production i also hands FOLLOW(A) to FOLLOW(B). */
  ghost function FollowInherit(g: Cfg, nullable: seq<bool>, i: int, j: int): bool
    requires g.WellFormed() && |nullable| == g.VariableNum()
    requires 0 <= i < |g.productions| && 0 <= j < |g.productions[i].right|
  {
    var p := g.productions[i];
    assert g.ProductionOk(p);
    SuffixSymbols(g, p.right, j + 1);
    j == |p.right| - 1 || (AllDeriveEmptyUnder(g, nullable, p.right[j + 1..]) && p.left != p.right[j])
  }

  /** FollowContribution holds of exactly those two inputs. */
  lemma FollowContributionIs(g: Cfg, nullable: seq<bool>, fs: seq<set<Symbol>>, i: int, j: int,
                             add: set<Symbol>, inherit: bool)
    requires g.WellFormed() && |nullable| == g.VariableNum() && FirstVectorOk(g, fs)
    requires 0 <= i < |g.productions| && 0 <= j < |g.productions[i].right|
    ensures FollowContribution(g, nullable, fs, i, j, add, inherit)
      <==> add == FollowAdd(g, fs, i, j) && inherit == FollowInherit(g, nullable, i, j)
  {
  }

  /** Some production among ps[..hi] has the right side [empty] and the
      variable numbered t + k on its left. */
  ghost predicate EmptyProductionOf(ps: seq<Production>, empty: Symbol, t: int, hi: int, k: int)
  {
    exists m :: 0 <= m < hi && m < |ps| && ps[m].right == [empty] && ps[m].left - t == k
  }

  /** Flagging the left side of production i exactly when it is an [empty]
      production extends "set before, or the left side of an [empty]
      production among the first i" to the first i + 1. */
  lemma EmptyFlagsStep(ps: seq<Production>, empty: Symbol, t: int, i: int,
                       start: seq<bool>, before: seq<bool>, after: seq<bool>)
    requires 0 <= i < |ps| && |start| == |before|
    requires forall k :: 0 <= k < |before| ==> (before[k] <==> start[k] || EmptyProductionOf(ps, empty, t, i, k))
    requires |ps[i].right| == 1 && ps[i].right[0] == empty ==>
      0 <= ps[i].left - t < |before| && after == before[ps[i].left - t := true]
    requires !(|ps[i].right| == 1 && ps[i].right[0] == empty) ==> after == before
    ensures |after| == |before|
    ensures forall k :: 0 <= k < |after| ==> (after[k] <==> start[k] || EmptyProductionOf(ps, empty, t, i + 1, k))
  {
    assert ps[i].right == [empty] <==> |ps[i].right| == 1 && ps[i].right[0] == empty;
    forall k | 0 <= k < |after|
      ensures after[k] <==> start[k] || EmptyProductionOf(ps, empty, t, i + 1, k)
    {
      if EmptyProductionOf(ps, empty, t, i + 1, k) && !EmptyProductionOf(ps, empty, t, i, k) {
        var m :| 0 <= m < i + 1 && m < |ps| && ps[m].right == [empty] && ps[m].left - t == k;
        assert m == i;
      }
      if ps[i].right == [empty] && ps[i].left - t == k {
        assert EmptyProductionOf(ps, empty, t, i + 1, k);
      }
    }
  }

  /** A superset of another size holds an element the smaller set lacks. */
  lemma GrownSetHasNewElement(x: set<Symbol>, y: set<Symbol>)
    requires x <= y
    ensures |x| != |y| ==> exists t :: t in y - x
  {
    NoElementMeansEmpty(y - x);
    if y - x == {} {
      forall t | t in y
        ensures t in x
      {
        assert t !in y - x;
      }
      assert x == y;
    }
  }

  /** Growing one set of a vector: the vector stays above start; the pairs
      grow past start once a set changed size; nothing changed otherwise. */
  lemma {:induction false} GrowOneOutcome(start: seq<set<Symbol>>, before: seq<set<Symbol>>,
                                          after: seq<set<Symbol>>, b: int, changedIn: bool, changed: bool)
    requires 0 <= b < |before| && SetsBelow(start, before)
    requires |after| == |before| && after == before[b := after[b]] && before[b] <= after[b]
    requires changedIn ==> Pairs(start) < Pairs(before)
    requires !changedIn ==> before == start
    requires changed <==> changedIn || |before[b]| != |after[b]|
    ensures SetsBelow(start, after)
    ensures changed ==> Pairs(start) < Pairs(after)
    ensures !changed ==> after == start
  {
    assert SetsBelow(before, after);
    if |before[b]| != |after[b]| {
      GrownSetHasNewElement(before[b], after[b]);
      var t :| t in after[b] - before[b];
      PairsGrow(start, after, b, t);
    } else {
      SubsetSameSize(before[b], after[b]);
      assert after == before;
      if changedIn {
        PairsMonotone(before, after);
      }
    }
  }


  /** The FOLLOW vector the loop starts from, the stack-bottom symbol in
      FOLLOW of the start symbol and nothing else, is a loop state. */
  lemma InitialFollowInvariant(g: Cfg, nullable: seq<bool>, fs: seq<set<Symbol>>, fo: seq<set<Symbol>>)
    requires g.WellFormed() && |nullable| == g.VariableNum() && FirstVectorOk(g, fs)
    requires |fo| == g.VariableNum() && fo[g.start - g.terminatorNum] == {g.StackBottom()}
    requires forall v :: 0 <= v < |fo| && v != g.start - g.terminatorNum ==> fo[v] == {}
    ensures FollowInvariant(g, nullable, fs, fo)
  {
  }

  /** One FOLLOW step keeps the loop state. */
  lemma {:induction false} FollowStepKeepsInvariant(g: Cfg, nullable: seq<bool>, fs: seq<set<Symbol>>,
                                                    before: seq<set<Symbol>>, i: int, j: int, a: int, b: int,
                                                    add: set<Symbol>, inherit: bool)
    requires g.WellFormed() && |nullable| == g.VariableNum() && FirstVectorOk(g, fs)
    requires ElementsBelow(fs, g.terminatorNum)
    requires 0 <= i < |g.productions| && 0 <= j < |g.productions[i].right|
    requires g.IsVariable(g.productions[i].right[j])
    requires a == g.productions[i].left - g.terminatorNum && b == g.productions[i].right[j] - g.terminatorNum
    requires FollowInvariant(g, nullable, fs, before)
    requires FollowContribution(g, nullable, fs, i, j, add, inherit)
    ensures 0 <= a < |before| && 0 <= b < |before|
    ensures FollowInvariant(g, nullable, fs, FollowNext(before, a, b, add, inherit))
    ensures var after := FollowNext(before, a, b, add, inherit);
      |after| == |before| && after == before[b := after[b]] && before[b] <= after[b]
  {
    var p := g.productions[i];
    assert g.ProductionOk(p);
    var suffix := p.right[j + 1..];
    SuffixSymbols(g, p.right, j + 1);
    FollowFirstStepSound(g, nullable, fs, before, i, j);
    forall t | t in add
      ensures 0 <= t < g.terminatorNum
    {
      StringFirstFromSymbols(g, fs, suffix, t);
    }
    FollowInvariantAdd(g, nullable, fs, before, b, add);
    var middle := before[b := before[b] + add];
    if inherit {
      FollowInheritStepSound(g, nullable, fs, middle, i, j);
      FollowInvariantAdd(g, nullable, fs, middle, b, middle[a]);
    }
  }

  /** A FOLLOW step that left FOLLOW(B) as it was shows its position closed. */
  lemma {:induction false} FollowStepCloses(g: Cfg, nullable: seq<bool>, fs: seq<set<Symbol>>,
                                            before: seq<set<Symbol>>, i: int, j: int, a: int, b: int,
                                            add: set<Symbol>, inherit: bool)
    requires g.WellFormed() && |nullable| == g.VariableNum() && FirstVectorOk(g, fs)
    requires 0 <= i < |g.productions| && 0 <= j < |g.productions[i].right|
    requires g.IsVariable(g.productions[i].right[j]) && |before| == g.VariableNum()
    requires a == g.productions[i].left - g.terminatorNum && b == g.productions[i].right[j] - g.terminatorNum
    requires FollowContribution(g, nullable, fs, i, j, add, inherit)
    requires 0 <= a < |before| && 0 <= b < |before| && FollowNext(before, a, b, add, inherit) == before
    ensures FollowAt(g, nullable, fs, before, i, j)
  {
    var p := g.productions[i];
    assert g.ProductionOk(p);
    SuffixSymbols(g, p.right, j + 1);
    assert add <= FollowNext(before, a, b, add, inherit)[b];
    assert inherit ==> before[a] <= FollowNext(before, a, b, add, inherit)[b];
    FollowAtFromStep(g, nullable, fs, before, i, j);
  }

  /** State of the FIRST loop that every step keeps. */
  ghost predicate FirstInvariant(g: Cfg, nullable: seq<bool>, fs: seq<set<Symbol>>)
    requires g.WellFormed() && |nullable| == g.VariableNum()
  {
    FirstVectorOk(g, fs)
    && (forall s :: 0 <= s < g.symbolNum ==> InitialFirst(g, s) <= fs[s])
    && (forall t :: 0 <= t < g.terminatorNum ==> fs[t] == {t})
    && ElementsBelow(fs, g.terminatorNum)
    && BelowEveryFirstClosed(g, nullable, fs)
  }

  /** One FIRST step keeps the loop state, and shows its production closed
      when it adds nothing. */
  lemma FirstStepKeepsInvariant(g: Cfg, nullable: seq<bool>, before: seq<set<Symbol>>, i: int, c: set<Symbol>)
    requires g.WellFormed() && |nullable| == g.VariableNum() && FirstInvariant(g, nullable, before)
    requires 0 <= i < |g.productions|
    requires g.ProductionOk(g.productions[i])
    requires c == FirstContribution(g, nullable, before, g.productions[i].right)
    ensures var a := g.productions[i].left;
      FirstInvariant(g, nullable, before[a := before[a] + c])
    ensures c <= before[g.productions[i].left] ==> FirstClosedAt(g, nullable, before, i)
  {
    var p := g.productions[i];
    FirstStepSound(g, nullable, before, i);
    if g.IsVariable(p.right[0]) {
      PrefixFirstElementsBelow(g, nullable, before, p.right, 0);
    }
    var after := before[p.left := before[p.left] + c];
    assert forall t :: 0 <= t < g.terminatorNum ==> after[t] == before[t];
    forall s | 0 <= s < |after|
      ensures forall t :: t in after[s] ==> 0 <= t < g.terminatorNum
    {
      assert s != p.left ==> after[s] == before[s];
    }
  }

  class Grammer {
    var terminatorNum: int
    var syntaxVariableNum: int
    var syntaxSymbolNum: int
    var startSymbol: Symbol
    var emptySymbol: Symbol
    var stackBottomSymbol: Symbol
    var isAugmented: bool
    var productions: seq<Production>
    /** `production_semantic_rule_`: the semantic action of each production,
        None for a null pointer. */
    var semanticRules: seq<Option<string>>
    /** `syntax_variables_derive_empty_`, indexed by variable - T. */
    var derivesEmpty: array<bool>
    /** `firsts_`, indexed by symbol. */
    var firsts: array<set<Symbol>>
    /** `follows_`, indexed by variable - T. */
    var follows: array<set<Symbol>>

    /** The grammar the analyses read. */
    function Spec(): Cfg
      reads this
    {
      Cfg(terminatorNum, syntaxSymbolNum, startSymbol, productions)
    }

    /** Every field but the three analysis arrays. */
    function Header(): (int, int, int, Symbol, Symbol, Symbol, bool, seq<Production>, seq<Option<string>>)
      reads this
    {
      (terminatorNum, syntaxVariableNum, syntaxSymbolNum, startSymbol, emptySymbol, stackBottomSymbol,
       isAugmented, productions, semanticRules)
    }

    predicate Valid()
      reads this
    {
      Spec().WellFormed()
      && emptySymbol == terminatorNum - 1 && stackBottomSymbol == terminatorNum - 2
      && syntaxSymbolNum == terminatorNum + syntaxVariableNum
      && |semanticRules| == |productions|
    }

    ghost predicate NullableDone()
      reads this, derivesEmpty
    {
      Valid() && derivesEmpty.Length == syntaxVariableNum && IsLeastNullable(Spec(), derivesEmpty[..])
    }

    ghost predicate FirstsDone()
      reads this, derivesEmpty, firsts
    {
      NullableDone() && firsts.Length == syntaxSymbolNum
      && IsLeastFirst(Spec(), derivesEmpty[..], firsts[..])
      && FirstInvariant(Spec(), derivesEmpty[..], firsts[..])
    }

    /** All three analyses hold their least solutions. */
    ghost predicate Analysed()
      reads this, derivesEmpty, firsts, follows
    {
      FirstsDone() && follows.Length == syntaxVariableNum
      && IsLeastFollow(Spec(), derivesEmpty[..], firsts[..], follows[..])
      && FollowInvariant(Spec(), derivesEmpty[..], firsts[..], follows[..])
    }

    /** What the finished analyses promise: the flags name exactly the
        nullable variables, FIRST of a terminator is itself, FOLLOW of the
        start symbol holds the stack bottom, and every FOLLOW set holds
        terminators only, never the empty symbol. */
    lemma AnalysedFacts()
      requires Analysed()
      ensures forall v :: terminatorNum <= v < syntaxSymbolNum ==>
                (derivesEmpty[v - terminatorNum] <==> Nullable(Spec(), v))
      ensures forall v :: terminatorNum <= v < syntaxSymbolNum ==>
                (derivesEmpty[v - terminatorNum] <==> DerivesEmpty(Spec(), v))
      ensures forall t :: 0 <= t < terminatorNum ==> firsts[t] == {t}
      ensures stackBottomSymbol in follows[startSymbol - terminatorNum]
      ensures forall v :: 0 <= v < follows.Length ==> emptySymbol !in follows[v]
      ensures forall v, t :: 0 <= v < follows.Length && t in follows[v] ==> 0 <= t < terminatorNum
    {
      forall v | terminatorNum <= v < syntaxSymbolNum
        ensures derivesEmpty[v - terminatorNum] <==> Nullable(Spec(), v)
        ensures derivesEmpty[v - terminatorNum] <==> DerivesEmpty(Spec(), v)
      {
        LeastNullableMeansNullable(Spec(), derivesEmpty[..], v);
        NullableIffDerivesEmpty(Spec(), v);
      }
      forall v, t | 0 <= v < follows.Length && t in follows[v]
        ensures 0 <= t < terminatorNum
      {
        assert follows[..][v] == follows[v];
      }
    }

    /** The constructor over the productions the file parser produced: T
        terminators, the start variable numbered T, the variable count and one
        semantic rule per production; then the optional augmentation and the
        three analyses, in that order. */
    constructor (terminators: int, variables: int, parsed: seq<Production>, rules: seq<Option<string>>,
                 augment: bool)
      requires 2 <= terminators && 1 <= variables
      requires Cfg(terminators, terminators + variables, terminators, parsed).WellFormed()
      requires |rules| == |parsed|
      ensures isAugmented == augment
      ensures Spec() == (var g := Cfg(terminators, terminators + variables, terminators, parsed);
                         if augment then Augmented(g) else g)
      ensures semanticRules == (if augment then [None] + rules else rules)
      ensures fresh(derivesEmpty) && fresh(firsts) && fresh(follows)
      ensures Analysed()
    {
      isAugmented := augment;
      terminatorNum := terminators;
      syntaxVariableNum := variables;
      syntaxSymbolNum := terminators + variables;
      startSymbol := terminators;
      emptySymbol := terminators - 1;
      stackBottomSymbol := terminators - 2;
      productions := parsed;
      semanticRules := rules;
      derivesEmpty := new bool[0];
      firsts := new set<Symbol>[0];
      follows := new set<Symbol>[0];
      new;
      if augment {
        Augment();
      }
      ComputeDerivesEmpty();
      ComputeFirsts();
      ComputeFollows();
    }

    /** One of the constructor's early returns after the counters are
        zeroed: on a first line without a space (no variable and no
        production yet), or on a later malformed line, when the variables
        counted and the productions and semantic rules pushed by the earlier
        lines stay. No symbol count is set, so the grammar reports failure. */
    constructor Unparsed(terminators: int, variables: nat, pushed: seq<Production>, rules: seq<Option<string>>,
                         augment: bool)
      ensures terminatorNum == terminators && syntaxVariableNum == variables && syntaxSymbolNum == 0
      ensures productions == pushed && semanticRules == rules && isAugmented == augment
      ensures variables > 0 ==> startSymbol == terminators
      ensures !IsInitSuccess()
    {
      terminatorNum := terminators;
      syntaxVariableNum := variables;
      syntaxSymbolNum := 0;
      startSymbol := terminators;
      emptySymbol := terminators - 1;
      stackBottomSymbol := terminators - 2;
      isAugmented := augment;
      productions := pushed;
      semanticRules := rules;
      derivesEmpty := new bool[0];
      firsts := new set<Symbol>[0];
      follows := new set<Symbol>[0];
    }

    /** `is_init_success`: a grammar that was read has symbols. */
    function IsInitSuccess(): (ok: bool)
      reads this
      ensures Valid() ==> ok
    {
      syntaxSymbolNum != 0
    }

    /** The augmentation block of the constructor: the new start symbol takes
        the next symbol number, and S' -> S with no semantic rule goes in front. */
    method Augment()
      requires Valid()
      modifies this
      ensures Spec() == Augmented(old(Spec()))
      ensures syntaxVariableNum == old(syntaxVariableNum) + 1
      ensures semanticRules == [None] + old(semanticRules)
      ensures emptySymbol == old(emptySymbol) && stackBottomSymbol == old(stackBottomSymbol)
      ensures isAugmented == old(isAugmented)
      ensures derivesEmpty == old(derivesEmpty) && firsts == old(firsts) && follows == old(follows)
      ensures Valid()
    {
      AugmentedStartIsFresh(Spec());
      var oldStart := startSymbol;
      startSymbol := syntaxSymbolNum;
      syntaxSymbolNum := syntaxSymbolNum + 1;
      syntaxVariableNum := syntaxVariableNum + 1;
      productions := [Production(startSymbol, [oldStart], AugmentedStartText)] + productions;
      semanticRules := [None] + semanticRules;
    }

    // -------------------------------------------------------------------------
    // Nullable variables

    /** The scan of one right side in the nullable loop, with the empty
        symbol counted as deriving empty. */
    method RightSideDerivesEmpty(flags: array<bool>, right: seq<Symbol>) returns (all: bool)
      requires Valid() && flags.Length == syntaxVariableNum && Spec().AllSymbols(right)
      ensures all <==> AllDeriveEmptyUnder(Spec(), flags[..], right)
    {
      var j := 0;
      while j < |right|
        invariant 0 <= j <= |right|
        invariant forall k :: 0 <= k < j ==> DerivesEmptyUnder(Spec(), flags[..], right[k])
      {
        var s := right[j];
        if (0 <= s < terminatorNum && s != emptySymbol) || (s >= terminatorNum && !flags[s - terminatorNum]) {
          assert !DerivesEmptyUnder(Spec(), flags[..], right[j]);
          return false;
        }
        j := j + 1;
      }
      return true;
    }

    /** The first loop of `get_all_symbol_variables_derive_empty`: every
        production S -> [empty] flags S. */
    method FlagEmptyProductions(flags: array<bool>, ghost g: Cfg)
      requires Valid() && g == Spec() && flags.Length == syntaxVariableNum
      requires BelowEveryNullableClosed(g, flags[..])
      modifies flags
      ensures BelowEveryNullableClosed(g, flags[..])
      ensures forall i :: 0 <= i < |productions| && productions[i].right == [emptySymbol] ==>
        flags[productions[i].left - terminatorNum]
      ensures forall k :: 0 <= k < flags.Length ==>
        (flags[k] <==> old(flags[k]) || EmptyProductionOf(productions, emptySymbol, terminatorNum, |productions|, k))
    {
      ghost var start := flags[..];
      for i := 0 to |productions|
        invariant BelowEveryNullableClosed(g, flags[..])
        invariant |flags[..]| == |start|
        invariant forall k :: 0 <= k < |start| ==>
          (flags[..][k] <==> start[k] || EmptyProductionOf(productions, emptySymbol, terminatorNum, i, k))
      {
        var p := productions[i];
        assert g.ProductionOk(p);
        ghost var before := flags[..];
        if |p.right| == 1 && p.right[0] == emptySymbol {
          assert DerivesEmptyUnder(g, flags[..], p.right[0]);
          NullableStepSound(g, flags[..], i);
          flags[p.left - terminatorNum] := true;
          assert flags[..] == before[p.left - terminatorNum := true];
        }
        EmptyFlagsStep(productions, emptySymbol, terminatorNum, i, start, before, flags[..]);
      }
      forall i | 0 <= i < |productions| && productions[i].right == [emptySymbol]
        ensures flags[productions[i].left - terminatorNum]
      {
        assert g.ProductionOk(productions[i]);
        assert flags[..][productions[i].left - terminatorNum];
      }
    }

    /** One pass of the nullable loop: flag the left side of every unflagged
        production whose right side derives empty; changed tells whether a
        flag was set. */
    method NullablePass(flags: array<bool>, ghost g: Cfg) returns (changed: bool)
      requires Valid() && g == Spec() && flags.Length == syntaxVariableNum
      requires BelowEveryNullableClosed(g, flags[..])
      modifies flags
      ensures BelowEveryNullableClosed(g, flags[..])
      ensures changed ==> FalseSet(flags[..]) < FalseSet(old(flags[..]))
      ensures !changed ==> flags[..] == old(flags[..]) && NullableClosed(g, flags[..])
    {
      changed := false;
      ghost var start := flags[..];
      for i := 0 to |productions|
        invariant BelowEveryNullableClosed(g, flags[..])
        invariant Below(start, flags[..])
        invariant changed ==> FalseSet(flags[..]) < FalseSet(start)
        invariant !changed ==> flags[..] == start && forall k :: 0 <= k < i ==> NullableClosedAt(g, start, k)
      {
        var p := productions[i];
        assert g.ProductionOk(p);
        var a := p.left - terminatorNum;
        if !flags[a] {
          var all := RightSideDerivesEmpty(flags, p.right);
          if all {
            NullableStepSound(g, flags[..], i);
            ghost var before := flags[..];
            flags[a] := true;
            assert flags[..] == before[a := true];
            FalseSetShrinks(start, flags[..], a);
            changed := true;
          }
        }
      }
    }

    /** `get_all_symbol_variables_derive_empty`: all flags clear, then every
        production S -> [empty] flags S, then passes over the productions
        until a pass changes nothing. */
    method ComputeDerivesEmpty()
      requires Valid()
      modifies this
      ensures Header() == old(Header()) && firsts == old(firsts) && follows == old(follows)
      ensures fresh(derivesEmpty)
      ensures NullableDone()
    {
      var g := Spec();
      var flags := new bool[syntaxVariableNum](_ => false);
      AllClearIsBelow(g, flags[..]);
      FlagEmptyProductions(flags, g);
      var changed := true;
      while changed
        modifies flags
        invariant flags.Length == g.VariableNum()
        invariant BelowEveryNullableClosed(g, flags[..])
        invariant !changed ==> NullableClosed(g, flags[..])
        decreases FalseSet(flags[..]), changed
      {
        changed := NullablePass(flags, g);
      }
      derivesEmpty := flags;
    }

    /** `derive_empty`, reading the flag of variable s at s - T. */
    function DeriveEmpty(s: Symbol): (r: bool)
      reads this, derivesEmpty
      requires NullableDone() && 0 <= s < syntaxSymbolNum
      ensures r <==> s == emptySymbol || Nullable(Spec(), s)
    {
      DerivesEmptyMeansNullable(Spec(), derivesEmpty[..], s);
      if 0 <= s < terminatorNum then s == emptySymbol else derivesEmpty[s - terminatorNum]
    }

    /** `string_derive_empty`: every symbol of w derives empty. */
    method StringDeriveEmpty(w: seq<Symbol>) returns (all: bool)
      requires NullableDone() && Spec().AllSymbols(w)
      ensures all <==> AllDeriveEmptyUnder(Spec(), derivesEmpty[..], w)
    {
      var j := 0;
      while j < |w|
        invariant 0 <= j <= |w|
        invariant forall k :: 0 <= k < j ==> DerivesEmptyUnder(Spec(), derivesEmpty[..], w[k])
      {
        DerivesEmptyMeansNullable(Spec(), derivesEmpty[..], w[j]);
        if !DeriveEmpty(w[j]) {
          return false;
        }
        j := j + 1;
      }
      return true;
    }

    // -------------------------------------------------------------------------
    // FIRST sets

    /** `set_difference_empty`: walks the set and erases the empty symbol
        when it meets it. */
    method SetDifferenceEmpty(s: set<Symbol>) returns (r: set<Symbol>)
      ensures r == s - {emptySymbol}
    {
      r := s;
      var rest := s;
      while rest != {}
        invariant rest <= s && r == s
        invariant emptySymbol in s ==> emptySymbol in rest
        decreases rest
      {
        NoElementMeansEmpty(rest);
        var x :| x in rest;
        if x == emptySymbol {
          r := r - {x};
          return;
        }
        rest := rest - {x};
      }
    }

    /** What the FIRST loop adds for a right side starting with a variable:
        FIRST without the empty symbol of each symbol up to the first one that
        does not derive empty, and the empty symbol when they all do. */
    method PrefixFirstOf(fs: array<set<Symbol>>, right: seq<Symbol>) returns (c: set<Symbol>)
      requires NullableDone() && fs.Length == syntaxSymbolNum && Spec().AllSymbols(right)
      ensures c == PrefixFirst(Spec(), derivesEmpty[..], fs[..], right, 0)
    {
      c := {};
      var j := 0;
      while j < |right|
        invariant 0 <= j <= |right|
        invariant c + PrefixFirst(Spec(), derivesEmpty[..], fs[..], right, j) ==
                  PrefixFirst(Spec(), derivesEmpty[..], fs[..], right, 0)
      {
        var tmp := SetDifferenceEmpty(fs[right[j]]);
        c := c + tmp;
        DerivesEmptyMeansNullable(Spec(), derivesEmpty[..], right[j]);
        if !DeriveEmpty(right[j]) {
          return;
        }
        j := j + 1;
      }
      c := c + {emptySymbol};
    }

    /** One production's step of a FIRST pass: union what it contributes
        into FIRST of its left side, and note whether that set grew. */
    method FirstStep(fs: array<set<Symbol>>, i: int, ghost g: Cfg, ghost nullable: seq<bool>,
                     ghost start: seq<set<Symbol>>, changedIn: bool)
      returns (changed: bool)
      requires NullableDone() && 0 <= i < |productions| && fs.Length == syntaxSymbolNum
      requires g == Spec() && nullable == derivesEmpty[..]
      requires FirstInvariant(g, nullable, fs[..])
      requires SetsBelow(start, fs[..])
      requires changedIn ==> Pairs(start) < Pairs(fs[..])
      requires !changedIn ==> fs[..] == start && forall k :: 0 <= k < i ==> FirstClosedAt(g, nullable, start, k)
      modifies fs
      ensures FirstInvariant(g, nullable, fs[..])
      ensures SetsBelow(start, fs[..])
      ensures changedIn ==> changed
      ensures changed ==> Pairs(start) < Pairs(fs[..])
      ensures !changed ==> fs[..] == start && forall k :: 0 <= k <= i ==> FirstClosedAt(g, nullable, start, k)
      ensures fs[..] == old(fs[..])[g.productions[i].left := old(fs[..])[g.productions[i].left]
                          + FirstContribution(g, nullable, old(fs[..]), g.productions[i].right)]
    {
      var p := productions[i];
      assert g.ProductionOk(p);
      var a := p.left;
      ghost var before := fs[..];
      ghost var c := FirstContribution(g, nullable, before, p.right);
      FirstStepKeepsInvariant(g, nullable, before, i, c);
      var oldSize := |fs[a]|;
      if terminatorNum <= p.right[0] < syntaxSymbolNum {
        var contribution := PrefixFirstOf(fs, p.right);
        fs[a] := fs[a] + contribution;
      }
      ghost var after := before[a := before[a] + c];
      assert fs[..] == after;
      changed := changedIn || oldSize != |fs[a]|;
      GrowOneOutcome(start, before, after, a, changedIn, changed);
    }

    /** One pass of the FIRST loop over every production; changed tells
        whether a FIRST set grew. */
    method FirstPass(fs: array<set<Symbol>>, ghost g: Cfg, ghost nullable: seq<bool>) returns (changed: bool)
      requires NullableDone() && fs.Length == syntaxSymbolNum
      requires g == Spec() && nullable == derivesEmpty[..]
      requires FirstInvariant(g, nullable, fs[..])
      modifies fs
      ensures FirstInvariant(g, nullable, fs[..])
      ensures changed ==> Grid(g.symbolNum, g.terminatorNum) - Pairs(fs[..]) <
                          Grid(g.symbolNum, g.terminatorNum) - Pairs(old(fs[..]))
      ensures !changed ==> fs[..] == old(fs[..])
      ensures !changed ==> forall i :: 0 <= i < |productions| ==> FirstClosedAt(g, nullable, fs[..], i)
    {
      changed := false;
      ghost var start := fs[..];
      for i := 0 to |productions|
        invariant FirstInvariant(g, nullable, fs[..])
        invariant SetsBelow(start, fs[..])
        invariant changed ==> Pairs(start) < Pairs(fs[..])
        invariant !changed ==> fs[..] == start && forall k :: 0 <= k < i ==> FirstClosedAt(g, nullable, start, k)
      {
        changed := FirstStep(fs, i, g, nullable, start, changed);
      }
      if changed {
        GridRestShrinks(start, fs[..], g.terminatorNum);
      }
    }

    /** `get_all_firsts`: {t} for each terminator t; for each variable, the
        normal terminators that start its productions and the empty symbol
        when it has a production S -> [empty]; then passes over the
        productions until no FIRST set changes size. */
    method ComputeFirsts()
      requires NullableDone()
      modifies this
      ensures Header() == old(Header()) && derivesEmpty == old(derivesEmpty) && follows == old(follows)
      ensures fresh(firsts)
      ensures FirstsDone()
    {
      var g := Spec();
      ghost var nullable := derivesEmpty[..];
      var fs := new set<Symbol>[syntaxSymbolNum](_ => {});
      for s := 0 to syntaxSymbolNum
        modifies fs
        invariant forall s' :: 0 <= s' < s ==> fs[s'] == InitialFirst(g, s')
      {
        var first: set<Symbol> := {};
        if s < terminatorNum {
          first := {s};
        } else {
          for k := 0 to |productions|
            invariant first == InitialVariableFirst(g, s, k)
          {
            var p := productions[k];
            assert g.ProductionOk(p);
            if p.left == s {
              if 0 <= p.right[0] < terminatorNum - 2 {
                first := first + {p.right[0]};
              } else if |p.right| == 1 && p.right[0] == emptySymbol {
                first := first + {emptySymbol};
              }
            }
          }
        }
        fs[s] := first;
      }
      InitialFirstIsBelow(g, nullable, fs[..]);
      forall s | 0 <= s < g.symbolNum
        ensures forall t :: t in fs[s] ==> 0 <= t < g.terminatorNum
      {
        InitialVariableFirstTerminators(g, s, |g.productions|);
      }
      var changed := true;
      while changed
        modifies fs
        invariant fs.Length == g.symbolNum
        invariant FirstInvariant(g, nullable, fs[..])
        invariant !changed ==> forall i :: 0 <= i < |productions| ==> FirstClosedAt(g, nullable, fs[..], i)
        decreases Grid(g.symbolNum, g.terminatorNum) - Pairs(fs[..]), changed
      {
        changed := FirstPass(fs, g, nullable);
      }
      firsts := fs;
    }

    /** `string_first`, with the final test made on the last symbol of w
        and only when the loop reached it: FIRST without the empty symbol of
        each symbol while the ones before have the empty symbol in FIRST, and
        the empty symbol when all of them do. */
    method StringFirst(w: seq<Symbol>) returns (result: set<Symbol>)
      requires FirstsDone() && Spec().AllSymbols(w)
      ensures result == GrammarSpec.StringFirst(Spec(), firsts[..], w)
    {
      result := {};
      if |w| != 0 {
        var g := Spec();
        result := SetDifferenceEmpty(firsts[w[0]]);
        var i := 0;
        while emptySymbol in firsts[w[i]] && i < |w| - 1
          invariant 0 <= i < |w|
          invariant GrammarSpec.StringFirst(g, firsts[..], w) == result + StringFirstRest(w, i)
        {
          SuffixSymbols(g, w, i + 1);
          assert w[i + 1..][0] == w[i + 1];
          assert w[i + 1..][1..] == w[i + 2..];
          var tmp := SetDifferenceEmpty(firsts[w[i + 1]]);
          result := result + tmp;
          i := i + 1;
        }
        if i == |w| - 1 && emptySymbol in firsts[w[i]] {
          result := result + {emptySymbol};
        }
      }
    }

    /** What FIRST of w still adds after symbol i. */
    ghost function StringFirstRest(w: seq<Symbol>, i: int): set<Symbol>
      reads this, firsts
      requires Valid() && firsts.Length == syntaxSymbolNum && Spec().AllSymbols(w) && 0 <= i < |w|
    {
      SuffixSymbols(Spec(), w, i + 1);
      if emptySymbol !in firsts[w[i]] then {}
      else if i == |w| - 1 then {emptySymbol}
      else GrammarSpec.StringFirst(Spec(), firsts[..], w[i + 1..])
    }

    // -------------------------------------------------------------------------
    // FOLLOW sets

    /** The two values a FOLLOW step starts from, worked out with
        `string_first`, `set_difference_empty` and `string_derive_empty`. */
    method FollowStepInputs(i: int, j: int) returns (add: set<Symbol>, inherit: bool)
      requires FirstsDone() && 0 <= i < |productions| && 0 <= j < |productions[i].right|
      ensures FollowContribution(Spec(), derivesEmpty[..], firsts[..], i, j, add, inherit)
    {
      var p := productions[i];
      assert Spec().ProductionOk(p);
      var suffix := p.right[j + 1..];
      SuffixSymbols(Spec(), p.right, j + 1);
      var first := StringFirst(suffix);
      add := SetDifferenceEmpty(first);
      var nullableSuffix := StringDeriveEmpty(suffix);
      inherit := j == |p.right| - 1 || (nullableSuffix && p.left != p.right[j]);
    }

    /** One position of a FOLLOW pass, B = right[j] a variable of production
        A -> right: union what the position hands over into FOLLOW(B), and
        note whether FOLLOW(B) grew. */
    method FollowStep(fo: array<set<Symbol>>, i: int, j: int, ghost g: Cfg, ghost nullable: seq<bool>,
                      ghost fs: seq<set<Symbol>>, ghost start: seq<set<Symbol>>, changedIn: bool)
      returns (changed: bool)
      requires FirstsDone() && fo != firsts && 0 <= i < |productions| && 0 <= j < |productions[i].right|
      requires g == Spec() && nullable == derivesEmpty[..] && fs == firsts[..]
      requires g.IsVariable(g.productions[i].right[j])
      requires FollowInvariant(g, nullable, fs, fo[..])
      requires SetsBelow(start, fo[..])
      requires changedIn ==> Pairs(start) < Pairs(fo[..])
      requires !changedIn ==> fo[..] == start
      modifies fo
      ensures FollowInvariant(g, nullable, fs, fo[..])
      ensures SetsBelow(start, fo[..])
      ensures changed ==> Pairs(start) < Pairs(fo[..])
      ensures changedIn ==> changed
      ensures !changed ==> fo[..] == start && FollowAt(g, nullable, fs, start, i, j)
      ensures fo[..] == FollowNext(old(fo[..]), g.productions[i].left - g.terminatorNum,
                                   g.productions[i].right[j] - g.terminatorNum,
                                   FollowAdd(g, fs, i, j), FollowInherit(g, nullable, i, j))
    {
      var p := productions[i];
      assert g.ProductionOk(p);
      var a := p.left - terminatorNum;
      var b := p.right[j] - terminatorNum;
      var add, inherit := FollowStepInputs(i, j);
      ghost var before := fo[..];
      var oldSize := |fo[b]|;
      // FOLLOW(A) is read after the first union, which matters when A is B.
      var follow := fo[b] + add;
      if inherit {
        follow := follow + (if a == b then follow else fo[a]);
      }
      changed := changedIn || oldSize != |follow|;
      ghost var after := FollowNext(before, a, b, add, inherit);
      assert after == before[b := follow];
      FollowStepKeepsInvariant(g, nullable, fs, before, i, j, a, b, add, inherit);
      GrowOneOutcome(start, before, after, b, changedIn, changed);
      if !changed {
        FollowStepCloses(g, nullable, fs, before, i, j, a, b, add, inherit);
      }
      FollowContributionIs(g, nullable, fs, i, j, add, inherit);
      assert add == FollowAdd(g, fs, i, j) && inherit == FollowInherit(g, nullable, i, j);
      assert a == g.productions[i].left - g.terminatorNum && b == g.productions[i].right[j] - g.terminatorNum;
      fo[b] := follow;
      assert fo[..] == after;
    }

    /** One production's turn in a FOLLOW pass: every position holding a
        variable, left to right. */
    method FollowProduction(fo: array<set<Symbol>>, i: int, ghost g: Cfg, ghost nullable: seq<bool>,
                            ghost fs: seq<set<Symbol>>, ghost start: seq<set<Symbol>>, changedIn: bool)
      returns (changed: bool)
      requires FirstsDone() && fo != firsts && 0 <= i < |productions|
      requires g == Spec() && nullable == derivesEmpty[..] && fs == firsts[..]
      requires FollowInvariant(g, nullable, fs, fo[..])
      requires SetsBelow(start, fo[..])
      requires changedIn ==> Pairs(start) < Pairs(fo[..])
      requires !changedIn ==> fo[..] == start
      modifies fo
      ensures FollowInvariant(g, nullable, fs, fo[..])
      ensures SetsBelow(start, fo[..])
      ensures changed ==> Pairs(start) < Pairs(fo[..])
      ensures changedIn ==> changed
      ensures !changed ==> (fo[..] == start &&
        forall j :: 0 <= j < |g.productions[i].right| && g.IsVariable(g.productions[i].right[j]) ==>
          FollowAt(g, nullable, fs, start, i, j))
    {
      changed := changedIn;
      var right := productions[i].right;
      for j := 0 to |right|
        invariant derivesEmpty[..] == nullable && firsts[..] == fs
        invariant changedIn ==> changed
        invariant FollowInvariant(g, nullable, fs, fo[..])
        invariant SetsBelow(start, fo[..])
        invariant changed ==> Pairs(start) < Pairs(fo[..])
        invariant !changed ==> (fo[..] == start &&
          forall j' :: 0 <= j' < j && g.IsVariable(right[j']) ==> FollowAt(g, nullable, fs, start, i, j'))
      {
        if terminatorNum <= right[j] < syntaxSymbolNum {
          changed := FollowStep(fo, i, j, g, nullable, fs, start, changed);
        }
      }
    }

    /** One pass of the FOLLOW loop over every production; changed tells
        whether a FOLLOW set grew. */
    method FollowPass(fo: array<set<Symbol>>, ghost g: Cfg, ghost nullable: seq<bool>, ghost fs: seq<set<Symbol>>)
      returns (changed: bool)
      requires FirstsDone() && fo != firsts
      requires g == Spec() && nullable == derivesEmpty[..] && fs == firsts[..]
      requires FollowInvariant(g, nullable, fs, fo[..])
      modifies fo
      ensures FollowInvariant(g, nullable, fs, fo[..])
      ensures changed ==> Grid(g.VariableNum(), g.terminatorNum) - Pairs(fo[..]) <
                          Grid(g.VariableNum(), g.terminatorNum) - Pairs(old(fo[..]))
      ensures !changed ==> fo[..] == old(fo[..])
      ensures !changed ==> forall i, j ::
        0 <= i < |productions| && 0 <= j < |productions[i].right| && g.IsVariable(productions[i].right[j])
        ==> FollowAt(g, nullable, fs, fo[..], i, j)
    {
      changed := false;
      ghost var start := fo[..];
      for i := 0 to |productions|
        invariant derivesEmpty[..] == nullable && firsts[..] == fs
        invariant FollowInvariant(g, nullable, fs, fo[..])
        invariant SetsBelow(start, fo[..])
        invariant changed ==> Pairs(start) < Pairs(fo[..])
        invariant !changed ==> fo[..] == start && forall i', j ::
          0 <= i' < i && 0 <= j < |productions[i'].right| && g.IsVariable(productions[i'].right[j])
          ==> FollowAt(g, nullable, fs, start, i', j)
      {
        changed := FollowProduction(fo, i, g, nullable, fs, start, changed);
      }
      if changed {
        GridRestShrinks(start, fo[..], g.terminatorNum);
      }
    }

    /** `get_all_follows`: every FOLLOW set empty but the start symbol's,
        which holds the stack-bottom symbol; then passes over the productions
        until no FOLLOW set changes size. */
    method ComputeFollows()
      requires FirstsDone()
      modifies this
      ensures Header() == old(Header()) && derivesEmpty == old(derivesEmpty) && firsts == old(firsts)
      ensures fresh(follows)
      ensures Analysed()
    {
      var g := Spec();
      ghost var nullable := derivesEmpty[..];
      ghost var fs := firsts[..];
      var fo := new set<Symbol>[syntaxVariableNum](_ => {});
      fo[startSymbol - terminatorNum] := fo[startSymbol - terminatorNum] + {stackBottomSymbol};
      InitialFollowInvariant(g, nullable, fs, fo[..]);
      var changed := true;
      while changed
        modifies fo
        invariant fo.Length == g.VariableNum()
        invariant FollowInvariant(g, nullable, fs, fo[..])
        invariant !changed ==> forall i, j ::
          0 <= i < |productions| && 0 <= j < |productions[i].right| && g.IsVariable(productions[i].right[j])
          ==> FollowAt(g, nullable, fs, fo[..], i, j)
        decreases Grid(g.VariableNum(), g.terminatorNum) - Pairs(fo[..]), changed
      {
        changed := FollowPass(fo, g, nullable, fs);
      }
      follows := fo;
    }
  }
}
