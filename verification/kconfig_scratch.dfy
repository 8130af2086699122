/**
  From-scratch evaluation of a configuration, and the dependency graph.

  A configuration without dependency loops gives every attribute a rank above
  all attributes it can look at.  Evaluation then has exactly one result, which
  `Scratch` computes.  `Dependents` is the graph the engine keeps for
  invalidation; `ReadsAreDependencies` shows that it covers every look-up.
 */
module KconfigScratch {
  import opened Basics
  import opened KconfigValues
  import opened KconfigCongruence

  // ---------------------------------------------------------------- possible look-ups

  function ExprKeys(cfg: Config, e: Expr): set<Key> {
    match e
    case Atom(i) => {AtomKey(cfg, i)}
    case And(l, r) => ExprKeys(cfg, l) + ExprKeys(cfg, r)
    case Or(l, r) => ExprKeys(cfg, l) + ExprKeys(cfg, r)
    case Not(x) => ExprKeys(cfg, x)
    case Rel(_, a, b) => {NumKey(cfg, a), KStr(a), NumKey(cfg, b), KStr(b)}
  }

  ghost function PromptKeys(cfg: Config, s: Item): set<Key> {
    set x, k | x in s.prompts && k in ExprKeys(cfg, x) :: k
  }

  ghost function CondKeys(cfg: Config, ds: seq<Default>): set<Key> {
    set d, k | d in ds && k in ExprKeys(cfg, d.cond) :: k
  }

  ghost function DefaultKeys(cfg: Config, ds: seq<Default>): set<Key> {
    CondKeys(cfg, ds) + (set d, k | d in ds && k in ExprKeys(cfg, d.value) :: k)
  }

  ghost function DefaultTextKeys(ds: seq<Default>): set<Key> {
    set d | d in ds && d.value.Atom? :: KStr(d.value.item)
  }

  ghost function RangeKeys(cfg: Config, rs: seq<Range>): set<Key> {
    (set r, k | r in rs && k in ExprKeys(cfg, r.cond) :: k)
    + (set r | r in rs :: KStr(r.low)) + (set r | r in rs :: KStr(r.high))
  }

  ghost function TypeKeys(cfg: Config, s: Item): set<Key> {
    if s.origType == Tristate then ModeKeyOf(s) + {KTri(cfg.modules)} else {}
  }

  /** Every attribute that some evaluation of `k` may look at. */
  ghost function PossibleReads(cfg: Config, k: Key): set<Key> {
    var s := At(cfg, k.i);
    match k
    case KVis(i) => if s.prompts == [] then {} else PromptKeys(cfg, s) + ModeKeyOf(s) + TypeKeys(cfg, s)
    case KTri(i) =>
      if !s.Symbol? || !IsTriType(s.origType) || s.isConstant then {}
      else if s.choice.Some? then {KVis(i), KSel(s.choice.value)}
      else {KVis(i)} + DefaultKeys(cfg, s.defaults) + ExprKeys(cfg, s.weakRevDep)
           + ExprKeys(cfg, s.directDep) + ExprKeys(cfg, s.revDep) + TypeKeys(cfg, s)
    case KStr(i) =>
      if !s.Symbol? || s.origType == Unknown then {}
      else if IsTriType(s.origType) then {KTri(i)}
      else {KVis(i)} + RangeKeys(cfg, s.ranges) + CondKeys(cfg, s.defaults) + DefaultTextKeys(s.defaults)
    case KSel(i) =>
      if !s.Choice? then {}
      else {KMode(i)} + (set x | x in s.syms :: KVis(x)) + CondKeys(cfg, s.choiceDefaults)
           + (set d | d in s.choiceDefaults && d.value.Atom? :: KVis(d.value.item))
    case KMode(i) => if !s.Choice? then {} else {KVis(i)} + TypeKeys(cfg, s)
  }

  /** No dependency loops: look-ups go strictly down in rank. */
  ghost predicate Acyclic(cfg: Config, rank: Key -> nat) {
    forall k: Key, d: Key :: d in PossibleReads(cfg, k) ==> rank(d) < rank(k)
  }

  /** A user selection always lies inside its choice. */
  ghost predicate UserOk(cfg: Config, u: User) {
    forall c :: c in u.sel ==> At(cfg, c).Choice? && u.sel[c] in At(cfg, c).syms
  }

  lemma {:induction false} ExprReadsPossible(cfg: Config, e: Expr, env: Env)
    ensures ExprReads(cfg, e, env) <= ExprKeys(cfg, e)
  {
    match e {
      case Atom(i) =>
      case And(l, r) => ExprReadsPossible(cfg, l, env); ExprReadsPossible(cfg, r, env);
      case Or(l, r) => ExprReadsPossible(cfg, l, env); ExprReadsPossible(cfg, r, env);
      case Not(x) => ExprReadsPossible(cfg, x, env);
      case Rel(_, a, b) =>
    }
  }

  lemma {:induction false} PromptReadsPossible(cfg: Config, ps: seq<Expr>, k: nat, env: Env)
    ensures forall d :: d in PromptReads(cfg, ps, k, env) ==> exists x :: x in ps && d in ExprKeys(cfg, x)
    decreases |ps| - k
  {
    if k < |ps| {
      ExprReadsPossible(cfg, ps[k], env);
      assert ps[k] in ps;
      PromptReadsPossible(cfg, ps, k + 1, env);
    }
  }

  lemma {:induction false} CondReadsPossible(cfg: Config, ds: seq<Default>, k: nat, env: Env)
    ensures CondReads(cfg, ds, k, env) <= CondKeys(cfg, ds)
    decreases |ds| - k
  {
    if k < |ds| {
      ExprReadsPossible(cfg, ds[k].cond, env);
      assert ds[k] in ds;
      CondReadsPossible(cfg, ds, k + 1, env);
    }
  }

  lemma DefaultTriReadsPossible(cfg: Config, ds: seq<Default>, env: Env)
    ensures DefaultTriReads(cfg, ds, env) <= DefaultKeys(cfg, ds)
  {
    CondReadsPossible(cfg, ds, 0, env);
    var d := ActiveDefault(cfg, ds, 0, env);
    if d.Some? {
      assert ds[d.value] in ds;
      ExprReadsPossible(cfg, ds[d.value].value, env);
    }
  }

  lemma DefaultTextReadsPossible(cfg: Config, ds: seq<Default>, env: Env)
    ensures DefaultTextReads(cfg, ds, env) <= CondKeys(cfg, ds) + DefaultTextKeys(ds)
  {
    CondReadsPossible(cfg, ds, 0, env);
    var d := ActiveDefault(cfg, ds, 0, env);
    if d.Some? { assert ds[d.value] in ds; }
  }

  lemma {:induction false} RangeReadsPossible(cfg: Config, rs: seq<Range>, k: nat, env: Env)
    ensures RangeReads(cfg, rs, k, env) <= RangeKeys(cfg, rs)
    decreases |rs| - k
  {
    if k < |rs| {
      ExprReadsPossible(cfg, rs[k].cond, env);
      assert rs[k] in rs;
      RangeReadsPossible(cfg, rs, k + 1, env);
    }
  }

  lemma {:induction false} FromDefaultsReadsPossible(cfg: Config, ds: seq<Default>, k: nat, env: Env)
    ensures FromDefaultsReads(cfg, ds, k, env)
            <= CondKeys(cfg, ds) + (set d | d in ds && d.value.Atom? :: KVis(d.value.item))
    decreases |ds| - k
  {
    if k < |ds| {
      ExprReadsPossible(cfg, ds[k].cond, env);
      assert ds[k] in ds;
      FromDefaultsReadsPossible(cfg, ds, k + 1, env);
    }
  }

  lemma {:induction false} FirstVisibleReadsPossible(syms: seq<nat>, k: nat, env: Env)
    ensures FirstVisibleReads(syms, k, env) <= set x | x in syms :: KVis(x)
    decreases |syms| - k
  {
    if k < |syms| {
      assert syms[k] in syms;
      FirstVisibleReadsPossible(syms, k + 1, env);
    }
  }

  lemma ReadsArePossible(cfg: Config, u: User, k: Key, env: Env)
    requires UserOk(cfg, u)
    ensures Reads(cfg, u, k, env) <= PossibleReads(cfg, k)
  {
    var s := At(cfg, k.i);
    match k {
      case KVis(i) => PromptReadsPossible(cfg, s.prompts, 0, env);
      case KTri(i) =>
        if s.Symbol? {
          DefaultTriReadsPossible(cfg, s.defaults, env);
          ExprReadsPossible(cfg, s.weakRevDep, env);
          ExprReadsPossible(cfg, s.directDep, env);
          ExprReadsPossible(cfg, s.revDep, env);
        }
      case KStr(i) =>
        if s.Symbol? {
          RangeReadsPossible(cfg, s.ranges, 0, env);
          DefaultTextReadsPossible(cfg, s.defaults, env);
        }
      case KSel(i) =>
        if s.Choice? {
          FromDefaultsReadsPossible(cfg, s.choiceDefaults, 0, env);
          FirstVisibleReadsPossible(s.syms, 0, env);
        }
      case KMode(i) =>
    }
  }

  // ---------------------------------------------------------------- evaluation

  ghost function ScratchVis(cfg: Config, u: User, rank: Key -> nat, i: nat): int
    decreases rank(KVis(i)), 1
  {
    VisValue(cfg, i, Below(cfg, u, rank, rank(KVis(i))))
  }

  ghost function ScratchTri(cfg: Config, u: User, rank: Key -> nat, i: nat): int
    decreases rank(KTri(i)), 1
  {
    TriValue(cfg, u, i, Below(cfg, u, rank, rank(KTri(i))))
  }

  ghost function ScratchStr(cfg: Config, u: User, rank: Key -> nat, i: nat): string
    decreases rank(KStr(i)), 1
  {
    StrValue(cfg, u, i, Below(cfg, u, rank, rank(KStr(i))))
  }

  ghost function ScratchSel(cfg: Config, u: User, rank: Key -> nat, i: nat): Option<nat>
    decreases rank(KSel(i)), 1
  {
    SelValue(cfg, u, i, Below(cfg, u, rank, rank(KSel(i))))
  }

  ghost function ScratchMode(cfg: Config, u: User, rank: Key -> nat, i: nat): int
    decreases rank(KMode(i)), 1
  {
    ModeValue(cfg, u, i, Below(cfg, u, rank, rank(KMode(i))))
  }

  /** The attributes of rank below `r`, and nothing for the others. */
  ghost function Below(cfg: Config, u: User, rank: Key -> nat, r: nat): Env
    decreases r, 0
  {
    Env((j: nat) => if rank(KVis(j)) < r then ScratchVis(cfg, u, rank, j) else 0,
        (j: nat) => if rank(KTri(j)) < r then ScratchTri(cfg, u, rank, j) else 0,
        (j: nat) => if rank(KStr(j)) < r then ScratchStr(cfg, u, rank, j) else "",
        (j: nat) => if rank(KSel(j)) < r then ScratchSel(cfg, u, rank, j) else None,
        (j: nat) => if rank(KMode(j)) < r then ScratchMode(cfg, u, rank, j) else 0)
  }

  /** Every attribute, recomputed without any cache. */
  ghost function Scratch(cfg: Config, u: User, rank: Key -> nat): Env {
    Env((j: nat) => ScratchVis(cfg, u, rank, j), (j: nat) => ScratchTri(cfg, u, rank, j),
        (j: nat) => ScratchStr(cfg, u, rank, j), (j: nat) => ScratchSel(cfg, u, rank, j),
        (j: nat) => ScratchMode(cfg, u, rank, j))
  }

  /** The environment satisfies the defining equation of attribute `k`. */
  ghost predicate SolvesAt(cfg: Config, u: User, env: Env, k: Key) {
    match k
    case KVis(i) => env.vis(i) == VisValue(cfg, i, env)
    case KTri(i) => env.tri(i) == TriValue(cfg, u, i, env)
    case KStr(i) => env.str(i) == StrValue(cfg, u, i, env)
    case KSel(i) => env.sel(i) == SelValue(cfg, u, i, env)
    case KMode(i) => env.mode(i) == ModeValue(cfg, u, i, env)
  }

  lemma ScratchSolves(cfg: Config, u: User, rank: Key -> nat, k: Key)
    requires Acyclic(cfg, rank) && UserOk(cfg, u)
    ensures SolvesAt(cfg, u, Scratch(cfg, u, rank), k)
  {
    var below := Below(cfg, u, rank, rank(k));
    var all := Scratch(cfg, u, rank);
    ReadsArePossible(cfg, u, k, below);
    forall d | d in Reads(cfg, u, k, below) ensures SameAt(below, all, d) {
      assert d in PossibleReads(cfg, k);
    }
    FormulaCongruent(cfg, u, k, below, all);
  }

  /** Evaluation has only one result: whatever solves all equations is `Scratch`. */
  lemma {:induction false} ScratchIsUnique(cfg: Config, u: User, rank: Key -> nat, env: Env, k: Key)
    requires Acyclic(cfg, rank) && UserOk(cfg, u)
    requires forall d: Key :: SolvesAt(cfg, u, env, d)
    ensures SameAt(env, Scratch(cfg, u, rank), k)
    decreases rank(k)
  {
    var all := Scratch(cfg, u, rank);
    ReadsArePossible(cfg, u, k, env);
    forall d | d in Reads(cfg, u, k, env) ensures SameAt(env, all, d) {
      assert d in PossibleReads(cfg, k);
      ScratchIsUnique(cfg, u, rank, env, d);
    }
    FormulaCongruent(cfg, u, k, env, all);
    ScratchSolves(cfg, u, rank, k);
    assert SolvesAt(cfg, u, env, k);
  }

  // ---------------------------------------------------------------- the dependency graph

  function ExprItems(e: Expr): set<nat> {
    match e
    case Atom(i) => {i}
    case And(l, r) => ExprItems(l) + ExprItems(r)
    case Or(l, r) => ExprItems(l) + ExprItems(r)
    case Not(x) => ExprItems(x)
    case Rel(_, a, b) => {a, b}
  }

  /** Some expression of item `i` mentions item `j` (`_build_dep`, `_add_choice_deps`). */
  predicate Mentions(s: Item, j: nat) {
    || (exists x :: x in s.prompts && j in ExprItems(x))
    || (if s.Symbol? then
          || (exists d :: d in s.defaults && (j in ExprItems(d.value) || j in ExprItems(d.cond)))
          || j in ExprItems(s.revDep) || j in ExprItems(s.weakRevDep) || j in ExprItems(s.directDep)
          || (exists r :: r in s.ranges && (j == r.low || j == r.high || j in ExprItems(r.cond)))
        else
          || (exists d :: d in s.choiceDefaults && j in ExprItems(d.cond))
          || j in s.syms)
  }

  predicate InGraph(s: Item) { s.Choice? || s.defined }

  predicate IsConst(s: Item) { s.Symbol? && s.isConstant }

  /** The items to reconsider when item `j` changes. */
  function Dependents(cfg: Config, j: nat): set<nat> {
    set i | 0 <= i < |cfg.items| && InGraph(cfg.items[i]) && !IsConst(At(cfg, j)) && Mentions(cfg.items[i], j)
  }

  /**
    The configurations the engine accepts without complaint: undefined and
    constant symbols carry no properties, choice symbols have their prompts
    inside the choice, and choice defaults name symbols of the choice.
   */
  ghost predicate Sane(cfg: Config) {
    forall i :: 0 <= i < |cfg.items| ==> SaneItem(cfg, i)
  }

  ghost predicate SaneItem(cfg: Config, i: nat) {
    var s := At(cfg, i);
    if s.Choice? then
      && (forall x :: x in s.syms ==> At(cfg, x).Symbol? && At(cfg, x).choice == Some(i))
      && (forall d :: d in s.choiceDefaults ==> d.value.Atom? && d.value.item in s.syms)
    else
      && (!s.defined ==> s.prompts == [] && (s.isConstant || s.origType == Unknown))
      && (s.isConstant ==> !s.defined && s.choice == None && (s.origType == Unknown || s.origType == Tristate))
      && (s.choice.Some? ==>
            && At(cfg, s.choice.value).Choice? && i in At(cfg, s.choice.value).syms
            && forall x :: x in s.prompts ==> s.choice.value in ExprItems(x))
  }

  lemma {:induction false} KeysOfItems(cfg: Config, e: Expr, d: Key)
    requires d in ExprKeys(cfg, e)
    ensures d.i in ExprItems(e)
  {
    match e {
      case Atom(_) =>
      case And(l, r) => if d in ExprKeys(cfg, l) { KeysOfItems(cfg, l, d); } else { KeysOfItems(cfg, r, d); }
      case Or(l, r) => if d in ExprKeys(cfg, l) { KeysOfItems(cfg, l, d); } else { KeysOfItems(cfg, r, d); }
      case Not(x) => KeysOfItems(cfg, x, d);
      case Rel(_, _, _) =>
    }
  }

  lemma PromptMentions(cfg: Config, s: Item, d: Key)
    requires d in PromptKeys(cfg, s)
    ensures Mentions(s, d.i)
  {
    var x :| x in s.prompts && d in ExprKeys(cfg, x);
    KeysOfItems(cfg, x, d);
  }

  lemma DefaultMentions(cfg: Config, s: Item, d: Key)
    requires s.Symbol? && d in DefaultKeys(cfg, s.defaults) + DefaultTextKeys(s.defaults)
    ensures Mentions(s, d.i)
  {
    if d in DefaultTextKeys(s.defaults) {
      var x :| x in s.defaults && x.value.Atom? && d == KStr(x.value.item);
      assert d.i in ExprItems(x.value);
    } else {
      var x :| x in s.defaults && (d in ExprKeys(cfg, x.cond) || d in ExprKeys(cfg, x.value));
      if d in ExprKeys(cfg, x.cond) { KeysOfItems(cfg, x.cond, d); } else { KeysOfItems(cfg, x.value, d); }
    }
  }

  lemma RangeMentions(cfg: Config, s: Item, d: Key)
    requires s.Symbol? && d in RangeKeys(cfg, s.ranges)
    ensures Mentions(s, d.i)
  {
    var r :| r in s.ranges && (d in ExprKeys(cfg, r.cond) || d == KStr(r.low) || d == KStr(r.high));
    if d in ExprKeys(cfg, r.cond) { KeysOfItems(cfg, r.cond, d); }
  }

  lemma ChoiceDefaultMentions(cfg: Config, i: nat, d: Key)
    requires At(cfg, i).Choice? && SaneItem(cfg, i)
    requires d in CondKeys(cfg, At(cfg, i).choiceDefaults)
    ensures Mentions(At(cfg, i), d.i)
  {
    var s := At(cfg, i);
    var x :| x in s.choiceDefaults && d in ExprKeys(cfg, x.cond);
    KeysOfItems(cfg, x.cond, d);
  }

  /** A symbol with a prompt mentions the choice it sits in. */
  lemma OwnChoiceMentioned(cfg: Config, i: nat)
    requires At(cfg, i).Symbol? && SaneItem(cfg, i)
    requires At(cfg, i).choice.Some? && At(cfg, i).prompts != []
    ensures Mentions(At(cfg, i), At(cfg, i).choice.value)
  {
    assert At(cfg, i).prompts[0] in At(cfg, i).prompts;
  }

  /**
    The dependency graph covers evaluation: whatever an evaluation of an
    attribute of item `i` looks at on another item `j`, item `i` is a dependent
    of `j`, unless `j` is constant or is MODULES (which invalidates everything).
   */
  lemma ReadsAreDependencies(cfg: Config, u: User, k: Key, env: Env, d: Key)
    requires Sane(cfg) && UserOk(cfg, u)
    requires At(cfg, k.i).prompts == [] ==> env.vis(k.i) == 0
    requires d in Reads(cfg, u, k, env)
    ensures d.i != k.i ==> InGraph(At(cfg, k.i))
    ensures d.i == k.i || d.i == cfg.modules || IsConst(At(cfg, d.i)) || k.i in Dependents(cfg, d.i)
  {
    var i := k.i;
    var s := At(cfg, i);
    assert i < |cfg.items|;
    assert SaneItem(cfg, i);
    ReadsArePossible(cfg, u, k, env);
    if d.i == i || d.i == cfg.modules {
    } else if s.Symbol? {
      SymbolReadMentioned(cfg, u, k, env, d);
    } else {
      ChoiceReadMentioned(cfg, k, d);
    }
  }

  lemma SymbolReadMentioned(cfg: Config, u: User, k: Key, env: Env, d: Key)
    requires At(cfg, k.i).Symbol? && SaneItem(cfg, k.i) && UserOk(cfg, u)
    requires At(cfg, k.i).prompts == [] ==> env.vis(k.i) == 0
    requires d in Reads(cfg, u, k, env) && d in PossibleReads(cfg, k)
    requires d.i != k.i && d.i != cfg.modules
    ensures Mentions(At(cfg, k.i), d.i)
  {
    var s := At(cfg, k.i);
    if s.choice.Some? && s.prompts != [] { OwnChoiceMentioned(cfg, k.i); }
    match k {
      case KVis(i) => if d in PromptKeys(cfg, s) { PromptMentions(cfg, s, d); }
      case KTri(i) =>
        if s.choice.None? {
          if d in DefaultKeys(cfg, s.defaults) { DefaultMentions(cfg, s, d); }
          else if d in ExprKeys(cfg, s.weakRevDep) { KeysOfItems(cfg, s.weakRevDep, d); }
          else if d in ExprKeys(cfg, s.directDep) { KeysOfItems(cfg, s.directDep, d); }
          else if d in ExprKeys(cfg, s.revDep) { KeysOfItems(cfg, s.revDep, d); }
        }
      case KStr(i) =>
        if d in RangeKeys(cfg, s.ranges) { RangeMentions(cfg, s, d); }
        else { DefaultMentions(cfg, s, d); }
      case KSel(_) =>
      case KMode(_) =>
    }
  }

  lemma ChoiceReadMentioned(cfg: Config, k: Key, d: Key)
    requires At(cfg, k.i).Choice? && SaneItem(cfg, k.i)
    requires d in PossibleReads(cfg, k)
    requires d.i != k.i && d.i != cfg.modules
    ensures Mentions(At(cfg, k.i), d.i)
  {
    var s := At(cfg, k.i);
    match k {
      case KVis(i) => if d in PromptKeys(cfg, s) { PromptMentions(cfg, s, d); }
      case KSel(i) => if d in CondKeys(cfg, s.choiceDefaults) { ChoiceDefaultMentions(cfg, i, d); }
      case KTri(_) =>
      case KStr(_) =>
      case KMode(_) =>
    }
  }

  // ---------------------------------------------------------------- an example

  /** The symbols y, n and MODULES, and a tristate choice between two symbols that defaults to the first. */
  function SampleConfig(parse: (Type, string) -> Option<int>, format: (Type, int) -> string): Config {
    var y, n := Atom(0), Atom(1);
    Config([Symbol("y", Tristate, true, false, [], [], n, n, y, [], None),
            Symbol("n", Tristate, true, false, [], [], n, n, y, [], None),
            Symbol("MODULES", Bool, false, true, [y], [], n, n, y, [], None),
            Choice(Tristate, false, [y], [Default(Atom(4), y)], [4, 5]),
            Symbol("A", Tristate, false, true, [Atom(3)], [], n, n, Atom(3), [], Some(3)),
            Symbol("B", Tristate, false, true, [Atom(3)], [], n, n, Atom(3), [], Some(3))], 2, parse, format)
  }

  function SampleRank(k: Key): nat {
    match k
    case KTri(i) => if i < 2 then 0 else if i == 2 then 2 else 7
    case KVis(i) => if i == 2 then 1 else if i == 3 then 3 else 5
    case KMode(_) => 4
    case KSel(_) => 6
    case KStr(_) => 8
  }

  /** Choices and their symbols mention each other, and yet their attributes are acyclic. */
  lemma ChoicesCanBeAcyclic(parse: (Type, string) -> Option<int>, format: (Type, int) -> string)
    ensures Sane(SampleConfig(parse, format)) && Acyclic(SampleConfig(parse, format), SampleRank)
    ensures 3 in Dependents(SampleConfig(parse, format), 4) && 4 in Dependents(SampleConfig(parse, format), 3)
  {
    var cfg := SampleConfig(parse, format);
    assert Atom(3) in cfg.items[4].prompts && 4 in cfg.items[3].syms;
    forall k: Key, d: Key | d in PossibleReads(cfg, k) ensures SampleRank(d) < SampleRank(k) {
      SampleReads(cfg, k, d);
    }
  }

  lemma SampleReads(cfg: Config, k: Key, d: Key)
    requires cfg == SampleConfig(cfg.parse, cfg.format) && d in PossibleReads(cfg, k)
    ensures SampleRank(d) < SampleRank(k)
  {
    var s := At(cfg, k.i);
    match k
    case KVis(i) => assert forall x :: x in s.prompts ==> x == if i > 3 then Atom(3) else Atom(0);
    case KTri(i) => assert s.Symbol? && s.defaults == [];
    case KSel(i) => if s.Choice? { assert forall x :: x in s.choiceDefaults ==> x == Default(Atom(4), Atom(0)); }
    case KStr(_) =>
    case KMode(_) =>
  }
}
