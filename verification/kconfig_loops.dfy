/**
  Dependency loops: the three-colour depth-first search that runs once the
  dependency graph is built.  Whatever it reports is a loop of the graph.  When
  it reports nothing, a graph without choices has no loop, and the order in
  which nodes were finished is a measure for recursive evaluation.
 */
module KconfigLoops {
  import opened Basics
  import opened KconfigValues
  import opened KconfigScratch

  // ---------------------------------------------------------------- the graph

  /** Mentions before the extra choice dependencies are added. */
  predicate MentionsEarly(s: Item, j: nat) {
    if s.Symbol? then Mentions(s, j)
    else
      || (exists x :: x in s.prompts && j in ExprItems(x))
      || (exists d :: d in s.choiceDefaults && j in ExprItems(d.cond))
  }

  /** `_dependents` as `_build_dep` leaves it. */
  function BuiltDep(cfg: Config, j: nat): set<nat> {
    set i | 0 <= i < |cfg.items| && InGraph(cfg.items[i]) && !IsConst(At(cfg, j)) && MentionsEarly(cfg.items[i], j)
  }

  /** The search goes from `i` to `j`. */
  predicate Edge(cfg: Config, i: nat, j: nat) {
    var s := At(cfg, i);
    if s.Symbol? then j in BuiltDep(cfg, i) || s.choice == Some(j) else j in s.syms
  }

  predicate OccursIn(j: nat, e: Expr) {
    match e
    case Atom(i) => i == j
    case And(l, r) => OccursIn(j, l) || OccursIn(j, r)
    case Or(l, r) => OccursIn(j, l) || OccursIn(j, r)
    case Not(x) => OccursIn(j, x)
    case Rel(_, a, b) => a == j || b == j
  }

  lemma {:induction false} ItemsOccur(e: Expr, j: nat)
    ensures j in ExprItems(e) <==> OccursIn(j, e)
  {
    match e {
      case Atom(_) =>
      case And(l, r) => ItemsOccur(l, j); ItemsOccur(r, j);
      case Or(l, r) => ItemsOccur(l, j); ItemsOccur(r, j);
      case Not(x) => ItemsOccur(x, j);
      case Rel(_, _, _) =>
    }
  }

  /** Some property of the symbol mentions item `i`. */
  ghost predicate DependsOn(s: Item, i: nat)
    requires s.Symbol?
  {
    || (exists x :: x in s.prompts && OccursIn(i, x))
    || (exists d :: d in s.defaults && (OccursIn(i, d.value) || OccursIn(i, d.cond)))
    || OccursIn(i, s.revDep) || OccursIn(i, s.weakRevDep) || OccursIn(i, s.directDep)
    || (exists r :: r in s.ranges && (i == r.low || i == r.high || OccursIn(i, r.cond)))
  }

  /** The search goes from a symbol to the symbols that depend on it, and nowhere else. */
  lemma EdgesAreDependencies(cfg: Config, i: nat, j: nat)
    requires ChoiceFree(cfg) && i < |cfg.items| && j < |cfg.items|
    ensures Edge(cfg, i, j) <==> cfg.items[j].defined && !cfg.items[i].isConstant && DependsOn(cfg.items[j], i)
  {
    forall e: Expr ensures i in ExprItems(e) <==> OccursIn(i, e) { ItemsOccur(e, i); }
  }

  /** Each element is visited from the next one. */
  predicate Chain(cfg: Config, loop: seq<nat>) {
    forall k :: 0 <= k < |loop| - 1 ==> Edge(cfg, loop[k + 1], loop[k])
  }

  predicate IsLoop(cfg: Config, loop: seq<nat>) {
    loop != [] && Chain(cfg, loop) && Edge(cfg, loop[0], loop[|loop| - 1])
  }

  ghost predicate ChoiceFree(cfg: Config) {
    forall i :: 0 <= i < |cfg.items| ==> cfg.items[i].Symbol? && cfg.items[i].choice.None?
  }

  ghost predicate AllDefined(cfg: Config, syms: seq<nat>) {
    forall i :: i in syms <==> 0 <= i < |cfg.items| && cfg.items[i].Symbol? && cfg.items[i].defined
  }

  // ---------------------------------------------------------------- the search

  /** Nothing found; part of a loop, on the way back to its first element; or a whole loop. */
  datatype Search = Clean | Part(loop: seq<nat>) | Raised(loop: seq<nat>)

  /** `_found_dep_loop` */
  function FoundLoop(loop: seq<nat>, cur: nat): Search
    requires loop != []
  {
    if cur != loop[0] then Part(loop + [cur]) else Raised(loop)
  }

  /** What a search from `node` may answer while `stack` is being visited. */
  ghost predicate Answers(cfg: Config, r: Search, node: nat, stack: seq<nat>) {
    match r
    case Clean => true
    case Part(loop) => loop != [] && loop[0] in stack && Chain(cfg, loop) && loop[|loop| - 1] == node
    case Raised(loop) => IsLoop(cfg, loop)
  }

  lemma FoundAnswers(cfg: Config, r: Search, dep: nat, cur: nat, stack: seq<nat>)
    requires r.Part? && Answers(cfg, r, dep, stack + [cur]) && Edge(cfg, cur, dep)
    ensures Answers(cfg, FoundLoop(r.loop, cur), cur, stack)
  {
  }

  /** Colours 0, 1 and 2: unvisited, on the stack, and finished with a finishing time. */
  ghost predicate Colours(cfg: Config, visited: seq<nat>, finish: map<nat, nat>, clock: nat, stack: seq<nat>) {
    && |visited| == |cfg.items|
    && (forall i :: 0 <= i < |visited| ==> (visited[i] == 1 <==> i in stack))
    && (forall i :: 0 <= i < |visited| ==> (visited[i] >= 2 <==> i in finish))
    && (forall i :: i in stack ==> i < |visited|)
    && (forall i :: i in finish ==>
         i < |visited| && finish[i] < clock && !IsConst(At(cfg, i)) && Finished(cfg, finish, i))
  }

  /** The dependents of a finished symbol were finished before it. */
  ghost predicate Finished(cfg: Config, finish: map<nat, nat>, i: nat) {
    i in finish && (At(cfg, i).Symbol? ==> forall d :: d in BuiltDep(cfg, i) ==> d in finish && finish[d] < finish[i])
  }

  ghost predicate Grows(f: map<nat, nat>, g: map<nat, nat>) {
    forall i :: i in f ==> i in g && f[i] == g[i]
  }

  ghost function Whites(visited: seq<nat>): set<nat> {
    set i | 0 <= i < |visited| && visited[i] == 0
  }

  lemma MarkGrey(cfg: Config, visited: seq<nat>, finish: map<nat, nat>, clock: nat, stack: seq<nat>, i: nat)
    requires Colours(cfg, visited, finish, clock, stack) && i < |visited| && visited[i] == 0
    ensures Colours(cfg, visited[i := 1], finish, clock, stack + [i])
    ensures Whites(visited[i := 1]) == Whites(visited) - {i} && i in Whites(visited)
  {
  }

  lemma MarkBlack(cfg: Config, visited: seq<nat>, finish: map<nat, nat>, clock: nat, stack: seq<nat>, i: nat)
    requires Colours(cfg, visited, finish, clock, stack + [i]) && i < |cfg.items| && i !in stack && !IsConst(At(cfg, i))
    requires At(cfg, i).Symbol? ==> forall d :: d in BuiltDep(cfg, i) ==> d in finish
    ensures |visited| == |cfg.items| && Colours(cfg, visited[i := 2], finish[i := clock], clock + 1, stack)
    ensures Grows(finish, finish[i := clock])
    ensures Whites(visited[i := 2]) == Whites(visited)
  {
    assert forall j :: j in stack + [i] <==> j in stack || j == i;
    var f := finish[i := clock];
    forall j | j in f ensures f[j] < clock + 1 && Finished(cfg, f, j) {
      if j != i { assert Finished(cfg, finish, j); }
    }
  }

  class LoopSearch {
    const cfg: Config
    var visited: seq<nat>
    ghost var finish: map<nat, nat>
    ghost var clock: nat

    ghost predicate Valid(stack: seq<nat>)
      reads this
    {
      Colours(cfg, visited, finish, clock, stack)
    }

    constructor (cfg: Config)
      ensures this.cfg == cfg && Valid([]) && finish == map[]
    {
      this.cfg := cfg;
      visited := seq(|cfg.items|, _ => 0);
      finish := map[];
      clock := 0;
    }

    /** `_check_dep_loop_sym`; `stack` is the chain of calls in progress. */
    method CheckSymbol(sym: nat, ignoreChoice: bool, ghost stack: seq<nat>) returns (r: Search)
      requires Valid(stack) && Sane(cfg) && sym < |cfg.items| && At(cfg, sym).Symbol? && !IsConst(At(cfg, sym))
      modifies this
      ensures Answers(cfg, r, sym, stack)
      ensures r.Clean? ==> Valid(stack) && sym in finish && Grows(old(finish), finish)
      ensures Whites(visited) <= old(Whites(visited))
      decreases Whites(visited)
    {
      hide Colours, Sane, BuiltDep;
      Lengths(cfg, visited, finish, clock, stack);
      if visited[sym] == 0 {
        MarkGrey(cfg, visited, finish, clock, stack, sym);
        ghost var inner := stack + [sym];
        visited := visited[sym := 1];
        var todo := BuiltDep(cfg, sym);
        ghost var white := Whites(visited);
        while todo != {}
          invariant Valid(inner) && Whites(visited) <= white && todo <= BuiltDep(cfg, sym)
          invariant Grows(old(finish), finish)
          invariant forall d :: d in BuiltDep(cfg, sym) - todo ==> d in finish
          decreases todo
        {
          var dep :| dep in todo;
          DependentsInRange(cfg, sym, dep);
          ghost var f := finish;
          if At(cfg, dep).Choice? {
            r := CheckChoice(dep, None, inner);
          } else {
            r := CheckSymbol(dep, false, inner);
          }
          if !r.Clean? { return Returned(r, dep, sym, stack); }
          todo := todo - {dep};
        }
        var choice := At(cfg, sym).choice;
        if choice.Some? && !ignoreChoice {
          ChoiceOf(cfg, sym);
          r := CheckChoice(choice.value, Some(sym), inner);
          if !r.Clean? { return Returned(r, choice.value, sym, stack); }
        }
        NotTwice(cfg, old(visited), old(finish), old(clock), stack, sym);
        MarkBlack(cfg, visited, finish, clock, stack, sym);
        visited, finish, clock := visited[sym := 2], finish[sym := clock], clock + 1;
        return Clean;
      }
      if visited[sym] >= 2 { return Clean; }
      return Part([sym]);
    }

    /** `_check_dep_loop_choice`; `skip` is the choice symbol it was entered through. */
    method CheckChoice(choice: nat, skip: Option<nat>, ghost stack: seq<nat>) returns (r: Search)
      requires Valid(stack) && Sane(cfg) && choice < |cfg.items| && At(cfg, choice).Choice?
      modifies this
      ensures Answers(cfg, r, choice, stack)
      ensures r.Clean? ==> Valid(stack) && choice in finish && Grows(old(finish), finish)
      ensures Whites(visited) <= old(Whites(visited))
      decreases Whites(visited)
    {
      hide Colours, Sane, BuiltDep;
      Lengths(cfg, visited, finish, clock, stack);
      if visited[choice] == 0 {
        MarkGrey(cfg, visited, finish, clock, stack, choice);
        ghost var inner := stack + [choice];
        visited := visited[choice := 1];
        var syms := At(cfg, choice).syms;
        ghost var white := Whites(visited);
        var k := 0;
        while k < |syms|
          invariant k <= |syms| && Valid(inner) && Whites(visited) <= white && Grows(old(finish), finish)
        {
          var sym := syms[k];
          if Some(sym) != skip {
            SymbolOf(cfg, choice, sym);
            r := CheckSymbol(sym, true, inner);
            if !r.Clean? { return Returned(r, sym, choice, stack); }
          }
          k := k + 1;
        }
        NotTwice(cfg, old(visited), old(finish), old(clock), stack, choice);
        MarkBlack(cfg, visited, finish, clock, stack, choice);
        visited, finish, clock := visited[choice := 2], finish[choice := clock], clock + 1;
        return Clean;
      }
      if visited[choice] >= 2 { return Clean; }
      return Part([choice]);
    }

    /** The search from every defined symbol. */
    method CheckAll(syms: seq<nat>) returns (r: Search)
      requires Valid([]) && Sane(cfg)
      requires AllDefined(cfg, syms)
      modifies this
      ensures !r.Part?
      ensures r.Raised? ==> IsLoop(cfg, r.loop)
      ensures r.Clean? ==> Valid([]) && forall i :: i in syms ==> i in finish
      ensures ChoiceFree(cfg) ==> (r.Raised? <==> exists loop :: IsLoop(cfg, loop))
      ensures r.Clean? && ChoiceFree(cfg) ==>
                forall low :: ModulesApart(cfg, low) ==> Acyclic(cfg, RankOf(finish, clock, low))
    {
      hide Colours, Sane, BuiltDep, IsLoop, ChoiceFree;
      var k := 0;
      while k < |syms|
        invariant k <= |syms| && Valid([]) && forall m :: 0 <= m < k ==> syms[m] in finish
      {
        assert syms[k] in syms;
        DefinedNotConst(cfg, syms[k]);
        r := CheckSymbol(syms[k], false, []);
        if !r.Clean? { return; }
        k := k + 1;
      }
      r := Clean;
      if ChoiceFree(cfg) {
        forall loop ensures !IsLoop(cfg, loop) { NoLoop(cfg, visited, finish, clock, syms, loop); }
        forall low | ModulesApart(cfg, low) ensures Acyclic(cfg, RankOf(finish, clock, low)) {
          FinishingOrderRanks(cfg, visited, finish, clock, syms, low);
        }
      }
    }

    /** The answer passed on by `cur` when the search from `dep` found something. */
    function Returned(r: Search, dep: nat, cur: nat, ghost stack: seq<nat>): (out: Search)
      requires !r.Clean? && Answers(cfg, r, dep, stack + [cur]) && Edge(cfg, cur, dep)
      ensures Answers(cfg, out, cur, stack) && !out.Clean?
    {
      if r.Raised? then r else (FoundAnswers(cfg, r, dep, cur, stack); FoundLoop(r.loop, cur))
    }
  }

  lemma Lengths(cfg: Config, visited: seq<nat>, finish: map<nat, nat>, clock: nat, stack: seq<nat>)
    requires Colours(cfg, visited, finish, clock, stack)
    ensures |visited| == |cfg.items|
    ensures forall i :: 0 <= i < |visited| ==> (visited[i] == 1 <==> i in stack) && (visited[i] >= 2 <==> i in finish)
  {
  }

  lemma NotTwice(cfg: Config, visited: seq<nat>, finish: map<nat, nat>, clock: nat, stack: seq<nat>, i: nat)
    requires Colours(cfg, visited, finish, clock, stack) && i < |visited| && visited[i] == 0
    ensures i !in stack
  {
  }

  lemma DependentsInRange(cfg: Config, i: nat, d: nat)
    requires Sane(cfg) && d in BuiltDep(cfg, i)
    ensures d < |cfg.items| && !IsConst(At(cfg, d))
  {
    assert SaneItem(cfg, d);
  }

  lemma DefinedNotConst(cfg: Config, i: nat)
    requires Sane(cfg) && i < |cfg.items| && InGraph(cfg.items[i])
    ensures !IsConst(At(cfg, i))
  {
    assert SaneItem(cfg, i);
  }

  lemma ChoiceOf(cfg: Config, i: nat)
    requires Sane(cfg) && i < |cfg.items| && At(cfg, i).Symbol? && At(cfg, i).choice.Some?
    ensures At(cfg, i).choice.value < |cfg.items| && At(cfg, At(cfg, i).choice.value).Choice?
  {
    assert SaneItem(cfg, i);
  }

  lemma SymbolOf(cfg: Config, c: nat, i: nat)
    requires Sane(cfg) && c < |cfg.items| && At(cfg, c).Choice? && i in At(cfg, c).syms
    ensures i < |cfg.items| && At(cfg, i).Symbol? && !IsConst(At(cfg, i))
  {
    assert SaneItem(cfg, c);
    assert SaneItem(cfg, i);
  }

  // ---------------------------------------------------------------- nothing found means no loop

  /** Along a chain finishing times rise. */
  lemma {:induction false} FinishRises(cfg: Config, visited: seq<nat>, finish: map<nat, nat>, clock: nat,
                                       loop: seq<nat>, k: nat)
    requires ChoiceFree(cfg) && Colours(cfg, visited, finish, clock, []) && Chain(cfg, loop) && k < |loop|
    requires forall m :: 0 <= m < |loop| ==> loop[m] in finish
    ensures finish[loop[0]] <= finish[loop[k]]
    decreases k
  {
    if k > 0 {
      FinishRises(cfg, visited, finish, clock, loop, k - 1);
      assert Edge(cfg, loop[k - 1 + 1], loop[k - 1]);
      assert Finished(cfg, finish, loop[k]);
    }
  }

  lemma NoLoop(cfg: Config, visited: seq<nat>, finish: map<nat, nat>, clock: nat, syms: seq<nat>, loop: seq<nat>)
    requires ChoiceFree(cfg) && Colours(cfg, visited, finish, clock, [])
    requires AllDefined(cfg, syms) && forall i :: i in syms ==> i in finish
    ensures !IsLoop(cfg, loop)
  {
    if loop != [] && Chain(cfg, loop) {
      var last := |loop| - 1;
      forall m | 0 <= m < last ensures loop[m] in finish {
        assert Edge(cfg, loop[m + 1], loop[m]);
        assert loop[m] in syms;
      }
      if loop[last] in finish {
        FinishRises(cfg, visited, finish, clock, loop, last);
        assert Finished(cfg, finish, loop[0]);
      } else {
        assert loop[last] !in syms;
      }
    }
  }

  // ---------------------------------------------------------------- the measure

  /** `low` holds MODULES and all it depends on, and no tristate symbol. */
  ghost predicate ModulesApart(cfg: Config, low: set<nat>) {
    && cfg.modules in low
    && (forall i, j :: i in low && 0 <= i < |cfg.items| && Mentions(cfg.items[i], j) ==> j in low)
    && (forall i :: i in low && At(cfg, i).origType == Tristate ==> IsConst(At(cfg, i)))
  }

  function Attribute(k: Key): nat {
    match k
    case KVis(_) => 0
    case KTri(_) => 1
    case KStr(_) => 2
    case KSel(_) => 3
    case KMode(_) => 4
  }

  /** Symbols finished later are evaluated first; MODULES and what it needs come before all others. */
  ghost function RankOf(finish: map<nat, nat>, clock: nat, low: set<nat>): Key -> nat {
    (k: Key) =>
      (if k.i in low then 0 else 8 * (clock + 1))
      + (if k.i in finish && finish[k.i] < clock then 8 * (clock - finish[k.i]) else 0)
      + Attribute(k)
  }

  /** A look-up stays on the symbol, asks for MODULES, or is a mention. */
  lemma PossibleMentioned(cfg: Config, k: Key, d: Key)
    requires ChoiceFree(cfg) && Sane(cfg) && d in PossibleReads(cfg, k)
    ensures k.i < |cfg.items|
    ensures || (d.i == k.i && Attribute(d) < Attribute(k))
            || (d == KTri(cfg.modules) && At(cfg, k.i).origType == Tristate && !IsConst(At(cfg, k.i)) &&
               At(cfg, k.i).defined)
            || (Mentions(At(cfg, k.i), d.i) && At(cfg, k.i).defined)
  {
    var s := At(cfg, k.i);
    assert k.i < |cfg.items|;
    assert SaneItem(cfg, k.i);
    match k {
      case KVis(i) => if d in PromptKeys(cfg, s) { PromptMentions(cfg, s, d); }
      case KTri(i) =>
        if d in DefaultKeys(cfg, s.defaults) { DefaultMentions(cfg, s, d); }
        else if d in ExprKeys(cfg, s.weakRevDep) { KeysOfItems(cfg, s.weakRevDep, d); }
        else if d in ExprKeys(cfg, s.directDep) { KeysOfItems(cfg, s.directDep, d); }
        else if d in ExprKeys(cfg, s.revDep) { KeysOfItems(cfg, s.revDep, d); }
      case KStr(i) =>
        if d in RangeKeys(cfg, s.ranges) { RangeMentions(cfg, s, d); }
        else if d in DefaultKeys(cfg, s.defaults) + DefaultTextKeys(s.defaults) { DefaultMentions(cfg, s, d); }
      case KSel(_) =>
      case KMode(_) =>
    }
  }

  /** A search that found nothing justifies recursive evaluation. */
  lemma FinishingOrderRanks(cfg: Config, visited: seq<nat>, finish: map<nat, nat>, clock: nat, syms: seq<nat>,
                            low: set<nat>)
    requires ChoiceFree(cfg) && Sane(cfg) && Colours(cfg, visited, finish, clock, []) && ModulesApart(cfg, low)
    requires AllDefined(cfg, syms) && forall i :: i in syms ==> i in finish
    ensures Acyclic(cfg, RankOf(finish, clock, low))
  {
    var rank := RankOf(finish, clock, low);
    forall k: Key, d: Key | d in PossibleReads(cfg, k) ensures rank(d) < rank(k) {
      LookUpGoesDown(cfg, visited, finish, clock, syms, low, k, d);
    }
  }

  lemma LookUpGoesDown(cfg: Config, visited: seq<nat>, finish: map<nat, nat>, clock: nat, syms: seq<nat>,
                       low: set<nat>, k: Key, d: Key)
    requires ChoiceFree(cfg) && Sane(cfg) && Colours(cfg, visited, finish, clock, []) && ModulesApart(cfg, low)
    requires AllDefined(cfg, syms) && forall i :: i in syms ==> i in finish
    requires d in PossibleReads(cfg, k)
    ensures RankOf(finish, clock, low)(d) < RankOf(finish, clock, low)(k)
  {
    PossibleMentioned(cfg, k, d);
    hide PossibleReads, Mentions, Sane;
    if d.i != k.i || Attribute(d) >= Attribute(k) {
      assert k.i in syms && k.i in finish;
      assert k.i in low ==> d.i in low;
      if Mentions(At(cfg, k.i), d.i) && d.i in finish {
        assert Finished(cfg, finish, d.i);
        assert k.i in BuiltDep(cfg, d.i);
      }
    }
  }
}
