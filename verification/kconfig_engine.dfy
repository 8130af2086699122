/**
  The caching evaluator.  Values are computed on demand, stored, and dropped
  again when a user value changes.  Every reader returns the from-scratch value
  and every operation keeps the cache coherent.
 */
module KconfigEngine {
  import opened Basics
  import opened KconfigValues
  import opened KconfigCongruence
  import opened KconfigScratch
  import opened KconfigLaws
  import opened KconfigCoherence

  // ---------------------------------------------------------------- loop lemmas

  /** The first `k` prompts have been evaluated. */
  ghost predicate PromptsSeen(cfg: Config, u: User, env: Env, c: Cache, ps: seq<Expr>, k: nat) {
    forall m :: 0 <= m < k && m < |ps| ==> AllAvail(cfg, u, env, c, ExprReads(cfg, ps[m], env))
  }

  lemma PromptsSeenGrows(cfg: Config, u: User, env: Env, c: Cache, d: Cache, ps: seq<Expr>, k: nat)
    requires Within(c, d) && PromptsSeen(cfg, u, env, c, ps, k) && k < |ps|
    requires AllAvail(cfg, u, env, d, ExprReads(cfg, ps[k], env))
    ensures PromptsSeen(cfg, u, env, d, ps, k + 1)
  {
  }

  lemma {:induction false} AllPromptsSeen(cfg: Config, u: User, env: Env, c: Cache, ps: seq<Expr>, k: nat)
    requires PromptsSeen(cfg, u, env, c, ps, |ps|)
    ensures AllAvail(cfg, u, env, c, PromptReads(cfg, ps, k, env))
    decreases |ps| - k
  {
    if k < |ps| { AllPromptsSeen(cfg, u, env, c, ps, k + 1); }
  }

  /** The conditions of the first `k` defaults have been evaluated; all were n. */
  ghost predicate CondsSeen(cfg: Config, u: User, env: Env, c: Cache, ds: seq<Default>, k: nat) {
    forall m :: 0 <= m < k && m < |ds| ==>
      ExprValue(cfg, ds[m].cond, env) == 0 && AllAvail(cfg, u, env, c, ExprReads(cfg, ds[m].cond, env))
  }

  lemma CondsSeenGrows(cfg: Config, u: User, env: Env, c: Cache, d: Cache, ds: seq<Default>, k: nat)
    requires Within(c, d) && CondsSeen(cfg, u, env, c, ds, k)
    ensures CondsSeen(cfg, u, env, d, ds, k)
  {
    forall m | 0 <= m < k && m < |ds| ensures AllAvail(cfg, u, env, d, ExprReads(cfg, ds[m].cond, env)) {
      AvailGrows(cfg, u, env, c, d, ExprReads(cfg, ds[m].cond, env));
    }
  }

  /** The search through the defaults continues at `k`. */
  lemma {:induction false} CondsSkipped(cfg: Config, u: User, env: Env, c: Cache, ds: seq<Default>, j: nat, k: nat)
    requires j <= k <= |ds| && CondsSeen(cfg, u, env, c, ds, k)
    requires AllAvail(cfg, u, env, c, CondReads(cfg, ds, k, env))
    ensures ActiveDefault(cfg, ds, j, env) == ActiveDefault(cfg, ds, k, env)
    ensures AllAvail(cfg, u, env, c, CondReads(cfg, ds, j, env))
    decreases k - j
  {
    if j < k { CondsSkipped(cfg, u, env, c, ds, j + 1, k); }
  }

  lemma CondFound(cfg: Config, u: User, env: Env, c: Cache, ds: seq<Default>, k: nat)
    requires k < |ds| && CondsSeen(cfg, u, env, c, ds, k)
    requires ExprValue(cfg, ds[k].cond, env) != 0 && AllAvail(cfg, u, env, c, ExprReads(cfg, ds[k].cond, env))
    ensures ActiveDefault(cfg, ds, 0, env) == Some(k)
    ensures AllAvail(cfg, u, env, c, CondReads(cfg, ds, 0, env))
  {
    CondsSkipped(cfg, u, env, c, ds, 0, k);
  }

  /** The conditions of the first `k` ranges have been evaluated; all were n. */
  ghost predicate RangesSeen(cfg: Config, u: User, env: Env, c: Cache, rs: seq<Range>, k: nat) {
    forall m :: 0 <= m < k && m < |rs| ==>
      ExprValue(cfg, rs[m].cond, env) == 0 && AllAvail(cfg, u, env, c, ExprReads(cfg, rs[m].cond, env))
  }

  lemma RangesSeenGrows(cfg: Config, u: User, env: Env, c: Cache, d: Cache, rs: seq<Range>, k: nat)
    requires Within(c, d) && RangesSeen(cfg, u, env, c, rs, k)
    ensures RangesSeen(cfg, u, env, d, rs, k)
  {
    forall m | 0 <= m < k && m < |rs| ensures AllAvail(cfg, u, env, d, ExprReads(cfg, rs[m].cond, env)) {
      AvailGrows(cfg, u, env, c, d, ExprReads(cfg, rs[m].cond, env));
    }
  }

  lemma {:induction false} RangesSkipped(cfg: Config, u: User, env: Env, c: Cache, rs: seq<Range>, j: nat, k: nat)
    requires j <= k <= |rs| && RangesSeen(cfg, u, env, c, rs, k)
    requires AllAvail(cfg, u, env, c, RangeReads(cfg, rs, k, env))
    ensures ActiveRange(cfg, rs, j, env) == ActiveRange(cfg, rs, k, env)
    ensures AllAvail(cfg, u, env, c, RangeReads(cfg, rs, j, env))
    decreases k - j
  {
    if j < k { RangesSkipped(cfg, u, env, c, rs, j + 1, k); }
  }

  lemma NothingSeen(cfg: Config, u: User, env: Env, c: Cache, ps: seq<Expr>)
    ensures PromptsSeen(cfg, u, env, c, ps, 0)
  {
  }

  lemma NothingRead(cfg: Config, i: nat, env: Env)
    requires At(cfg, i).prompts == []
    ensures VisReads(cfg, i, env) == {}
  {
  }

  lemma NoRangeReads(cfg: Config, rs: seq<Range>, env: Env)
    ensures RangeReads(cfg, rs, |rs|, env) == {}
  {
  }

  lemma NothingNeeded(cfg: Config, u: User, env: Env, c: Cache)
    ensures AllAvail(cfg, u, env, c, {}) && Within(c, c)
  {
  }

  // ---------------------------------------------------------------- ranks of look-ups

  ghost predicate RanksBelow(rank: Key -> nat, ks: set<Key>, r: nat) {
    forall d :: d in ks ==> rank(d) < r
  }

  lemma TriRanks(cfg: Config, rank: Key -> nat, i: nat)
    requires Acyclic(cfg, rank)
    requires var s := At(cfg, i); s.Symbol? && IsTriType(s.origType) && !s.isConstant
    ensures var s := At(cfg, i); var r := rank(KTri(i));
            && rank(KVis(i)) < r
            && (s.choice.Some? ==> rank(KSel(s.choice.value)) < r)
            && (s.choice.None? ==>
                  && RanksBelow(rank, DefaultKeys(cfg, s.defaults), r)
                  && RanksBelow(rank, ExprKeys(cfg, s.weakRevDep), r)
                  && RanksBelow(rank, ExprKeys(cfg, s.directDep), r)
                  && RanksBelow(rank, ExprKeys(cfg, s.revDep), r)
                  && RanksBelow(rank, TypeKeys(cfg, s), r))
  {
  }

  lemma DefaultRanks(cfg: Config, rank: Key -> nat, ds: seq<Default>, r: nat, k: nat)
    requires RanksBelow(rank, DefaultKeys(cfg, ds), r) && k < |ds|
    ensures RanksBelow(rank, ExprKeys(cfg, ds[k].cond), r) && RanksBelow(rank, ExprKeys(cfg, ds[k].value), r)
  {
  }

  lemma CondRanks(cfg: Config, rank: Key -> nat, ds: seq<Default>, r: nat, k: nat)
    requires RanksBelow(rank, CondKeys(cfg, ds), r) && k < |ds|
    ensures RanksBelow(rank, ExprKeys(cfg, ds[k].cond), r)
  {
  }

  lemma CondsBelow(cfg: Config, rank: Key -> nat, ds: seq<Default>, r: nat)
    requires RanksBelow(rank, DefaultKeys(cfg, ds), r)
    ensures RanksBelow(rank, CondKeys(cfg, ds), r)
  {
  }

  lemma TextRanks(cfg: Config, rank: Key -> nat, i: nat)
    requires Acyclic(cfg, rank)
    requires var s := At(cfg, i); s.Symbol? && s.origType != Unknown
    ensures var s := At(cfg, i); var r := rank(KStr(i));
            if IsTriType(s.origType) then rank(KTri(i)) < r
            else
              && rank(KVis(i)) < r
              && RanksBelow(rank, CondKeys(cfg, s.defaults), r)
              && (forall d :: d in s.defaults && d.value.Atom? ==> rank(KStr(d.value.item)) < r)
              && (forall x :: x in s.ranges ==>
                    RanksBelow(rank, ExprKeys(cfg, x.cond), r) && rank(KStr(x.low)) < r && rank(KStr(x.high)) < r)
  {
  }

  lemma SelRanks(cfg: Config, rank: Key -> nat, i: nat)
    requires Acyclic(cfg, rank) && At(cfg, i).Choice?
    ensures var s := At(cfg, i); var r := rank(KSel(i));
            && rank(KMode(i)) < r
            && (forall x :: x in s.syms ==> rank(KVis(x)) < r)
            && RanksBelow(rank, CondKeys(cfg, s.choiceDefaults), r)
            && (forall d :: d in s.choiceDefaults && d.value.Atom? ==> rank(KVis(d.value.item)) < r)
  {
  }

  lemma VisRanks(cfg: Config, rank: Key -> nat, i: nat)
    requires Acyclic(cfg, rank) && At(cfg, i).prompts != []
    ensures var s := At(cfg, i); var r := rank(KVis(i));
            && (forall x :: x in s.prompts ==> RanksBelow(rank, ExprKeys(cfg, x), r))
            && RanksBelow(rank, ModeKeyOf(s), r) && RanksBelow(rank, TypeKeys(cfg, s), r)
  {
  }

  lemma ModeRanks(cfg: Config, rank: Key -> nat, i: nat)
    requires Acyclic(cfg, rank) && At(cfg, i).Choice?
    ensures rank(KVis(i)) < rank(KMode(i)) && RanksBelow(rank, TypeKeys(cfg, At(cfg, i)), rank(KMode(i)))
  {
  }

  // ---------------------------------------------------------------- invalidation

  /** The cache with all values of the given items dropped. */
  function Without(c: Cache, items: set<nat>): Cache {
    Cache(c.vis - items, c.tri - items, c.str - items, c.sel - items)
  }

  /** The items `_invalidate_all` visits: defined symbols and choices. */
  function GraphItems(cfg: Config): set<nat> {
    set i | 0 <= i < |cfg.items| && InGraph(cfg.items[i])
  }

  /** An invalidation from `start` whose dependents in `done` have been dealt with. */
  ghost predicate Partial(cfg: Config, start: nat, before: Cache, c: Cache, done: set<nat>) {
    && Within(c, before)
    && Empty(c, start)
    && WholeItems(cfg, start, before, c)
    && (forall j :: j != start && Lost(before, c, j) ==> DependentsDropped(cfg, j, c))
    && (forall d :: d in done ==> d !in c.vis)
    && (Lost(before, c, cfg.modules) ==> AllDropped(cfg, c))
  }

  lemma PartialExtends(cfg: Config, start: nat, before: Cache, c: Cache, after: Cache, done: set<nat>, d: nat)
    requires Partial(cfg, start, before, c, done) && start != cfg.modules
    requires d in c.vis && Invalidation(cfg, d, c, after)
    ensures Partial(cfg, start, before, after, done + {d})
    ensures after.vis.Keys <= c.vis.Keys
  {
    assert Has(c, KVis(d)) && !Has(after, KVis(d));
    forall k: Key | Has(before, k) && !Has(after, k)
      ensures InGraph(At(cfg, k.i)) && Empty(after, k.i)
      ensures k.i == start || k.i in before.vis || AllDropped(cfg, after)
    {
      if Has(c, k) {
      } else {
        assert Empty(c, k.i);
      }
    }
    forall j | j != start && Lost(before, after, j) ensures DependentsDropped(cfg, j, after) {
      if j in c.vis {
        assert Lost(c, after, j);
      } else {
        assert Lost(before, c, j) && DependentsDropped(cfg, j, c);
      }
    }
  }

  lemma AllDroppedIsInvalidation(cfg: Config, i: nat, before: Cache)
    requires i == cfg.modules && InGraph(At(cfg, i))
    ensures Invalidation(cfg, i, before, Without(before, GraphItems(cfg)))
  {
    hide Mentions;
    assert i < |cfg.items|;
  }

  lemma PartialStarts(cfg: Config, i: nat, before: Cache)
    requires i != cfg.modules && InGraph(At(cfg, i))
    ensures Partial(cfg, i, before, Without(before, {i}), {})
  {
  }

  lemma PartialSkips(cfg: Config, i: nat, before: Cache, c: Cache, done: set<nat>, d: nat)
    requires Partial(cfg, i, before, c, done) && d !in c.vis
    ensures Partial(cfg, i, before, c, done + {d})
  {
  }

  lemma PartialEnds(cfg: Config, i: nat, before: Cache, c: Cache)
    requires Partial(cfg, i, before, c, Dependents(cfg, i)) && i != cfg.modules
    ensures Invalidation(cfg, i, before, c)
  {
  }

  lemma DependentInGraph(cfg: Config, i: nat, d: nat)
    requires d in Dependents(cfg, i)
    ensures InGraph(At(cfg, d))
  {
  }

  // ---------------------------------------------------------------- user values

  datatype Value = VTri(v: int) | VText(s: string)

  /** n, m and y may be given as text for bool and tristate symbols. */
  function Converted(t: Type, value: Value): Value {
    if IsTriType(t) && value.VText? && value.s in ["n", "m", "y"] then VTri(ConstTri(value.s)) else value
  }

  predicate IsValidFor(cfg: Config, t: Type, value: Value) {
    match value
    case VTri(x) => (t == Bool && (x == 0 || x == 2)) || (t == Tristate && 0 <= x <= 2)
    case VText(s) =>
      || t == Str
      || (t == Int && cfg.parse(Int, s).Some?)
      || (t == Hex && cfg.parse(Hex, s).Some? && cfg.parse(Hex, s).value >= 0)
  }

  predicate AlreadySet(u: User, i: nat, value: Value) {
    match value
    case VTri(x) => i in u.tri && u.tri[i] == x
    case VText(s) => i in u.text && u.text[i] == s
  }

  /** y on a choice symbol also makes it the user selection of the choice. */
  function Assigned(cfg: Config, u: User, i: nat, value: Value): User {
    match value
    case VTri(x) =>
      var s := At(cfg, i);
      if x == 2 && s.Symbol? && s.choice.Some? then u.(tri := u.tri[i := x], sel := u.sel[s.choice.value := i])
      else u.(tri := u.tri[i := x])
    case VText(t) => u.(text := u.text[i := t])
  }

  function Unassigned(u: User, i: nat): User {
    User(u.tri - {i}, u.text - {i}, u.sel - {i})
  }

  lemma AssignedAgain(cfg: Config, u: User, i: nat, value: Value)
    requires AlreadySet(u, i, value) && At(cfg, i).Symbol? && At(cfg, i).choice.None?
    ensures Assigned(cfg, u, i, value) == u
  {
  }

  lemma AssignedOk(cfg: Config, u: User, i: nat, value: Value)
    requires Sane(cfg) && UserOk(cfg, u) && At(cfg, i).Symbol?
    ensures UserOk(cfg, Assigned(cfg, u, i, value))
    ensures !(At(cfg, i).choice.Some? && value == VTri(2)) ==>
              forall j :: j != i ==> SameUser(u, Assigned(cfg, u, i, value), j)
  {
    if At(cfg, i).choice.Some? { assert SaneItem(cfg, i); }
  }

  lemma ChoiceExists(cfg: Config, i: nat)
    requires Sane(cfg) && At(cfg, i).Symbol? && At(cfg, i).choice.Some?
    ensures At(cfg, At(cfg, i).choice.value).Choice?
  {
    assert SaneItem(cfg, i);
  }

  lemma SurvivorsWithin(cfg: Config, start: nat, before: Cache, after: Cache)
    requires Invalidation(cfg, start, before, after)
    ensures Within(after, before)
  {
  }

  /** What survives the invalidation of a choice does not rest on what was assigned to its symbol. */
  lemma OwnChoiceSurvivor(cfg: Config, u: User, rank: Key -> nat, i: nat, before: Cache, after: Cache, k: Key)
    requires Acyclic(cfg, rank) && Sane(cfg) && UserOk(cfg, u)
    requires Coherent(cfg, u, Scratch(cfg, u, rank), before) && At(cfg, i).Symbol? && At(cfg, i).choice.Some?
    requires Invalidation(cfg, At(cfg, i).choice.value, before, after) && Has(after, k) &&
             IsTriType(At(cfg, i).origType)
    ensures SameUser(u, Assigned(cfg, u, i, VTri(2)), k.i) || Indifferent(cfg, k)
  {
    hide Scratch, Coherent, Acyclic;
    assert SaneItem(cfg, i);
    if k.i == i && At(cfg, i).prompts != [] {
      ChoiceSymbolDropped(cfg, u, rank, i, before, after, k);
    }
  }

  // ---------------------------------------------------------------- runs

  datatype Op =
    | Set(i: nat, value: Value) | Unset(i: nat) | SetChoice(i: nat, value: Value) | UnsetChoice(i: nat)
    | GetVis(i: nat) | GetTri(i: nat) | GetText(i: nat) | GetMode(i: nat) | GetSel(i: nat)

  datatype Out = Ack(ok: bool) | Num(v: int) | Txt(s: string) | Chosen(c: Option<nat>)

  predicate OpOk(cfg: Config, op: Op) {
    match op
    case Set(i, _) => At(cfg, i).Symbol?
    case Unset(i) => At(cfg, i).Symbol?
    case SetChoice(i, _) => At(cfg, i).Choice?
    case UnsetChoice(i) => At(cfg, i).Choice?
    case _ => true
  }

  predicate SetSucceeds(cfg: Config, u: User, i: nat, value: Value) {
    var s := At(cfg, i);
    if s.Symbol? then (AlreadySet(u, i, value) && s.choice.None?) || IsValidFor(cfg, s.origType, value)
    else AlreadySet(u, i, value) || (value.VTri? && IsValidFor(cfg, s.origType, value))
  }

  function ConvertedFor(cfg: Config, i: nat, value: Value): Value {
    Converted(if At(cfg, i).Choice? then Tristate else At(cfg, i).origType, value)
  }

  /** The engine without a cache: only user values are kept. */
  ghost function PlainUser(cfg: Config, u: User, op: Op): User {
    match op
    case Set(i, x) =>
      var value := ConvertedFor(cfg, i, x);
      if SetSucceeds(cfg, u, i, value) then Assigned(cfg, u, i, value) else u
    case SetChoice(i, x) =>
      var value := ConvertedFor(cfg, i, x);
      if SetSucceeds(cfg, u, i, value) then Assigned(cfg, u, i, value) else u
    case Unset(i) => Unassigned(u, i)
    case UnsetChoice(i) => Unassigned(u, i)
    case _ => u
  }

  /** Every answer of the engine without a cache is recomputed from scratch. */
  ghost function PlainOut(cfg: Config, rank: Key -> nat, u: User, op: Op): Out {
    match op
    case Set(i, x) => Ack(SetSucceeds(cfg, u, i, ConvertedFor(cfg, i, x)))
    case SetChoice(i, x) => Ack(SetSucceeds(cfg, u, i, ConvertedFor(cfg, i, x)))
    case Unset(_) => Ack(true)
    case UnsetChoice(_) => Ack(true)
    case GetVis(i) => Num(Scratch(cfg, u, rank).vis(i))
    case GetTri(i) => Num(Scratch(cfg, u, rank).tri(i))
    case GetText(i) => Txt(Scratch(cfg, u, rank).str(i))
    case GetMode(i) => Num(Scratch(cfg, u, rank).mode(i))
    case GetSel(i) => Chosen(Scratch(cfg, u, rank).sel(i))
  }

  ghost function PlainRun(cfg: Config, rank: Key -> nat, u: User, ops: seq<Op>): seq<Out>
    decreases |ops|
  {
    if ops == [] then []
    else [PlainOut(cfg, rank, u, ops[0])] + PlainRun(cfg, rank, PlainUser(cfg, u, ops[0]), ops[1..])
  }

  // ---------------------------------------------------------------- what assignments promise

  /** The value is one that a symbol of the type can take. */
  predicate Suits(cfg: Config, t: Type, x: Value) {
    match t
    case Bool => x in [VTri(0), VTri(2), VText("n"), VText("y")]
    case Tristate => x in [VTri(0), VTri(1), VTri(2), VText("n"), VText("m"), VText("y")]
    case Str => x.VText?
    case Int => x.VText? && cfg.parse(Int, x.s).Some?
    case Hex => x.VText? && cfg.parse(Hex, x.s).Some? && cfg.parse(Hex, x.s).value >= 0
    case Unknown => false
  }

  /** n, m or y. */
  predicate IsTriValue(x: Value, v: int) {
    match v
    case 0 => x == VTri(0) || x == VText("n")
    case 1 => x == VTri(1) || x == VText("m")
    case 2 => x == VTri(2) || x == VText("y")
    case _ => false
  }

  /** A symbol takes what suits its type and nothing else; y for a member of a choice also selects it there. */
  lemma SetLaw(cfg: Config, rank: Key -> nat, u: User, i: nat, x: Value)
    requires At(cfg, i).Symbol?
    ensures var s := At(cfg, i); var v := PlainUser(cfg, u, Set(i, x));
            if !Suits(cfg, s.origType, x) then
              v == u && (PlainOut(cfg, rank, u, Set(i, x)) == Ack(true) ==> s.choice.None?)
            else
              && PlainOut(cfg, rank, u, Set(i, x)) == Ack(true)
              && if IsTriType(s.origType) then
                   && v.text == u.text && i in v.tri && IsTriValue(x, v.tri[i]) && v.tri - {i} == u.tri - {i}
                   && v.sel == if v.tri[i] == 2 && s.choice.Some? then u.sel[s.choice.value := i] else u.sel
                 else v == u.(text := u.text[i := x.s])
  {
    hide Scratch, Suits, IsTriValue, ConvertedFor, SetSucceeds;
    SetAccepts(cfg, u, i, x);
  }

  /** What is accepted, and what it is converted to. */
  lemma SetAccepts(cfg: Config, u: User, i: nat, x: Value)
    requires At(cfg, i).Symbol?
    ensures var s := At(cfg, i); var value := ConvertedFor(cfg, i, x); var ok := SetSucceeds(cfg, u, i, value);
            if Suits(cfg, s.origType, x) then
              ok && if IsTriType(s.origType) then value.VTri? && IsTriValue(x, value.v) else value == x && x.VText?
            else ok ==> s.choice.None? && AlreadySet(u, i, value)
  {
  }

  /** The same for the mode of a choice. */
  lemma SetModeLaw(cfg: Config, rank: Key -> nat, u: User, i: nat, x: Value)
    requires At(cfg, i).Choice?
    ensures var v := PlainUser(cfg, u, SetChoice(i, x));
            if IsTriType(At(cfg, i).origType) && Suits(cfg, At(cfg, i).origType, x) then
              && PlainOut(cfg, rank, u, SetChoice(i, x)) == Ack(true)
              && i in v.tri && IsTriValue(x, v.tri[i]) && v == u.(tri := u.tri[i := v.tri[i]])
            else v == u
  {
    hide Scratch;
  }

  /** Forgetting a user value forgets that one only. */
  lemma UnsetLaw(cfg: Config, u: User, i: nat, op: Op)
    requires op == Unset(i) || op == UnsetChoice(i)
    ensures var v := PlainUser(cfg, u, op);
            && i !in v.tri && i !in v.text && i !in v.sel
            && forall j :: j != i ==> SameUser(u, v, j)
  {
  }

  /** The user values after some operations. */
  ghost function UserAfter(cfg: Config, u: User, ops: seq<Op>): User
    decreases |ops|
  {
    if ops == [] then u else UserAfter(cfg, PlainUser(cfg, u, ops[0]), ops[1..])
  }

  lemma PlainUserOk(cfg: Config, u: User, op: Op)
    requires Sane(cfg) && UserOk(cfg, u) && Modest(u) && OpOk(cfg, op)
    ensures UserOk(cfg, PlainUser(cfg, u, op)) && Modest(PlainUser(cfg, u, op))
  {
    hide Sane;
    if op.Set? { AssignedOk(cfg, u, op.i, ConvertedFor(cfg, op.i, op.value)); }
  }

  /**
    In every run each question is answered from values that obey all laws, for
    the user values of that moment.
   */
  lemma {:induction false} RunLaw(cfg: Config, rank: Key -> nat, u: User, ops: seq<Op>, k: nat) returns (env: Env)
    requires Acyclic(cfg, rank) && Sane(cfg) && UserOk(cfg, u) && Modest(u)
    requires k < |ops| && forall op :: op in ops ==> OpOk(cfg, op)
    ensures |PlainRun(cfg, rank, u, ops)| == |ops| && Solution(cfg, UserAfter(cfg, u, ops[..k]), env)
    ensures var out := PlainRun(cfg, rank, u, ops)[k];
            match ops[k]
            case GetVis(i) => out == Num(env.vis(i))
            case GetTri(i) => out == Num(env.tri(i))
            case GetText(i) => out == Txt(env.str(i))
            case GetMode(i) => out == Num(env.mode(i))
            case GetSel(i) => out == Chosen(env.sel(i))
            case _ => out.Ack?
    decreases |ops|
  {
    hide Scratch, Acyclic, Sane, Solution, OpOk, PlainUser, Modest, UserOk;
    RunLength(cfg, rank, u, ops);
    assert ops[0] in ops;
    if k == 0 {
      assert ops[..0] == [];
      ScratchIsSolution(cfg, u, rank);
      return Scratch(cfg, u, rank);
    }
    PlainUserOk(cfg, u, ops[0]);
    env := RunLaw(cfg, rank, PlainUser(cfg, u, ops[0]), ops[1..], k - 1);
    assert ops[..k][0] == ops[0] && ops[..k][1..] == ops[1..][..k - 1];
  }

  lemma {:induction false} RunLength(cfg: Config, rank: Key -> nat, u: User, ops: seq<Op>)
    ensures |PlainRun(cfg, rank, u, ops)| == |ops|
    decreases |ops|
  {
    if ops != [] { RunLength(cfg, rank, PlainUser(cfg, u, ops[0]), ops[1..]); }
  }

  class Kconfig {
    const cfg: Config
    ghost const rank: Key -> nat
    var user: User
    var cache: Cache

    ghost function Truth(): Env
      reads this
    {
      Scratch(cfg, user, rank)
    }

    ghost predicate Valid()
      reads this
    {
      Acyclic(cfg, rank) && Sane(cfg) && UserOk(cfg, user) && Modest(user) && Coherent(cfg, user, Truth(), cache)
    }

    ghost predicate Known(ks: set<Key>)
      reads this
    {
      AllAvail(cfg, user, Truth(), cache, ks)
    }

    /** The engine answers from values that obey all laws of the language. */
    lemma TruthIsSolution()
      requires Valid()
      ensures Solution(cfg, user, Truth())
    {
      hide Acyclic, Sane, Coherent, Scratch;
      ScratchIsSolution(cfg, user, rank);
    }

    constructor (cfg: Config, ghost rank: Key -> nat)
      requires Acyclic(cfg, rank) && Sane(cfg)
      ensures Valid() && this.cfg == cfg && this.rank == rank
      ensures user == User(map[], map[], map[])
    {
      this.cfg := cfg;
      this.rank := rank;
      user := User(map[], map[], map[]);
      cache := Cache(map[], map[], map[], map[]);
    }

    // -------------------------------------------------------------- readers

    /** `visibility` */
    method Visibility(i: nat) returns (v: int)
      requires Valid()
      modifies this`cache
      ensures Valid() && Within(old(cache), cache)
      ensures v == Truth().vis(i) && Known({KVis(i)})
      decreases rank(KVis(i)), 3
    {
      hide Modest, Scratch, Coherent, Acyclic, Sane, VisValue, VisReads;
      if i in cache.vis {
        CachedIsRight(cfg, user, Truth(), cache, KVis(i));
        return cache.vis[i];
      }
      v := ComputeVisibility(i);
      ScratchSolves(cfg, user, rank, KVis(i));
      if i in cache.vis { CachedIsRight(cfg, user, Truth(), cache, KVis(i)); }
      ghost var c := cache;
      cache := cache.(vis := cache.vis[i := v]);
      StoreCoherent(cfg, user, Truth(), c, cache, KVis(i));
    }

    /** `_visibility` */
    method ComputeVisibility(i: nat) returns (v: int)
      requires Valid()
      modifies this`cache
      ensures Valid() && Within(old(cache), cache)
      ensures v == VisValue(cfg, i, Truth()) && Known(VisReads(cfg, i, Truth()))
      decreases rank(KVis(i)), 2
    {
      hide Modest, Scratch, Coherent, Acyclic, Sane, AllAvail, Within, ExprReads, ExprValue, ExprKeys, RanksBelow,
        PromptReads,
        TypeReads, TypeKeys, PromptVis;
      var s := At(cfg, i);
      ghost var r := rank(KVis(i));
      if s.prompts == [] {
        // An item without prompts is invisible; the checks below cannot change that.
        NoPromptsNoVisibility(cfg, i, Truth());
        NothingRead(cfg, i, Truth());
        NothingNeeded(cfg, user, Truth(), cache);
        return 0;
      }
      VisRanks(cfg, rank, i);
      v := ComputePrompts(i);
      ghost var raw, seen := v, PromptReads(cfg, s.prompts, 0, Truth());
      ghost var c := cache;
      if AsksMode(cfg, s, v) {
        var mode := Mode(s.choice.value);
        WithinChains(old(cache), c, cache);
        AvailAdds(cfg, user, Truth(), c, cache, seen, ModeKeyOf(s));
        seen := seen + ModeKeyOf(s);
        if s.origType != Tristate && mode != 2 {
          AvailSubset(cfg, user, Truth(), cache, seen, VisReads(cfg, i, Truth()));
          return 0;
        }
        if s.origType == Tristate && mode == 2 {
          AvailSubset(cfg, user, Truth(), cache, seen, VisReads(cfg, i, Truth()));
          return 0;
        }
      }
      c := cache;
      if v == 1 {
        var t := TypeOf(i, r);
        WithinChains(old(cache), c, cache);
        AvailAdds(cfg, user, Truth(), c, cache, seen, TypeReads(cfg, s, Truth()));
        seen := seen + TypeReads(cfg, s, Truth());
        if t != Tristate { v := 2; }
      }
      AvailSubset(cfg, user, Truth(), cache, seen, VisReads(cfg, i, Truth()));
    }

    /** The loop over prompts: the largest value of their conditions. */
    method ComputePrompts(i: nat) returns (v: int)
      requires Valid() && At(cfg, i).prompts != []
      modifies this`cache
      ensures Valid() && Within(old(cache), cache)
      ensures v == PromptVis(cfg, At(cfg, i).prompts, 0, Truth()) &&
              Known(PromptReads(cfg, At(cfg, i).prompts, 0, Truth()))
      decreases rank(KVis(i)), 1, 5
    {
      hide Modest, Scratch, Coherent, Acyclic, Sane, ExprReads, ExprValue, ExprKeys, RanksBelow, PromptReads, AllAvail,
          Within, PromptsSeen;
      var ps := At(cfg, i).prompts;
      v := 0;
      var k := 0;
      NothingSeen(cfg, user, Truth(), cache, ps);
      NothingNeeded(cfg, user, Truth(), cache);
      while k < |ps|
        invariant Valid() && Within(old(cache), cache)
        invariant k <= |ps|
        invariant Max(v, PromptVis(cfg, ps, k, Truth())) == PromptVis(cfg, ps, 0, Truth())
        invariant v >= 0
        invariant PromptsSeen(cfg, user, Truth(), cache, ps, k)
      {
        ghost var c := cache;
        VisRanks(cfg, rank, i);
        assert ps[k] in ps;
        var x := EvalExpr(ps[k], rank(KVis(i)));
        WithinChains(old(cache), c, cache);
        PromptsSeenGrows(cfg, user, Truth(), c, cache, ps, k);
        v := Max(v, x);
        k := k + 1;
      }
      AllPromptsSeen(cfg, user, Truth(), cache, ps, 0);
    }

    /** `type` */
    method TypeOf(i: nat, ghost r: nat) returns (t: Type)
      requires Valid()
      requires RanksBelow(rank, TypeKeys(cfg, At(cfg, i)), r)
      modifies this`cache
      ensures Valid() && Within(old(cache), cache)
      ensures t == EffectiveType(cfg, At(cfg, i), Truth()) && Known(TypeReads(cfg, At(cfg, i), Truth()))
      decreases r, 0
    {
      hide Modest, Scratch, Coherent, Acyclic, Sane;
      var s := At(cfg, i);
      if s.origType != Tristate { return s.origType; }
      if s.Symbol? && s.choice.Some? {
        var mode := Mode(s.choice.value);
        if mode == 2 { return Bool; }
      }
      ghost var c := cache;
      var m := Tri(cfg.modules);
      AvailGrows(cfg, user, Truth(), c, cache, ModeKeyOf(s));
      return if m == 0 then Bool else Tristate;
    }

    /** `Choice.tri_value`, computed afresh on every use. */
    method Mode(i: nat) returns (v: int)
      requires Valid()
      modifies this`cache
      ensures Valid() && Within(old(cache), cache)
      ensures v == Truth().mode(i) && Known({KMode(i)})
      decreases rank(KMode(i)), 3
    {
      hide Modest, Scratch, Coherent, Acyclic, Sane;
      ScratchSolves(cfg, user, rank, KMode(i));
      var s := At(cfg, i);
      if !s.Choice? { return 0; }
      v := if s.isOptional then 0 else 1;
      if i in user.tri { v := Max(v, user.tri[i]); }
      ModeRanks(cfg, rank, i);
      var vis := Visibility(i);
      v := Min(v, vis);
      ghost var c := cache;
      assert Avail(cfg, user, Truth(), cache, KVis(i));
      if v == 1 {
        var t := TypeOf(i, rank(KMode(i)));
        AvailGrows(cfg, user, Truth(), c, cache, {KVis(i)});
        forall d | d in ModeReads(cfg, user, i, Truth()) ensures Has(cache, d) {
          assert Avail(cfg, user, Truth(), cache, d);
        }
        if t == Bool { v := 2; }
      }
    }

    /** `Symbol.tri_value` */
    method Tri(i: nat) returns (v: int)
      requires Valid()
      modifies this`cache
      ensures Valid() && Within(old(cache), cache)
      ensures v == Truth().tri(i) && Known({KTri(i)})
      decreases rank(KTri(i)), 3
    {
      hide Modest, Scratch, Coherent, Acyclic, Sane, TriValue, TriReads;
      if i in cache.tri {
        CachedIsRight(cfg, user, Truth(), cache, KTri(i));
        return cache.tri[i];
      }
      v := ComputeTri(i);
      ScratchSolves(cfg, user, rank, KTri(i));
      if i in cache.tri { CachedIsRight(cfg, user, Truth(), cache, KTri(i)); }
      ghost var c := cache;
      cache := cache.(tri := cache.tri[i := v]);
      StoreCoherent(cfg, user, Truth(), c, cache, KTri(i));
    }

    method ComputeTri(i: nat) returns (v: int)
      requires Valid()
      modifies this`cache
      ensures Valid() && Within(old(cache), cache)
      ensures v == TriValue(cfg, user, i, Truth()) && Known(TriReads(cfg, user, i, Truth()))
      decreases rank(KTri(i)), 2, 2
    {
      hide Modest, Scratch, Coherent, Acyclic, Sane;
      var s := At(cfg, i);
      if !s.Symbol? || !IsTriType(s.origType) {
        // Other types always evaluate to n in a logical context.
        v := 0;
      } else if s.isConstant {
        v := ConstTri(s.name);
      } else if s.choice.Some? {
        v := ComputeChoiceSymbol(i);
      } else {
        v := ComputePlainSymbol(i);
      }
    }

    method ComputeChoiceSymbol(i: nat) returns (v: int)
      requires Valid()
      requires At(cfg, i).Symbol? && IsTriType(At(cfg, i).origType) && !At(cfg, i).isConstant
      requires At(cfg, i).choice.Some?
      modifies this`cache
      ensures Valid() && Within(old(cache), cache)
      ensures v == TriValue(cfg, user, i, Truth()) && Known(TriReads(cfg, user, i, Truth()))
      decreases rank(KTri(i)), 2, 1
    {
      hide Modest, Scratch, Coherent, Acyclic, Sane;
      var s := At(cfg, i);
      TriRanks(cfg, rank, i);
      var vis := Visibility(i);
      ghost var c := cache;
      if vis == 2 {
        var sel := Selection(s.choice.value);
        AvailGrows(cfg, user, Truth(), c, cache, {KVis(i)});
        assert Avail(cfg, user, Truth(), cache, KVis(i)) && Avail(cfg, user, Truth(), cache, KSel(s.choice.value));
        v := if sel == Some(i) then 2 else 0;
      } else if vis != 0 && i in user.tri && user.tri[i] != 0 {
        v := 1;
      } else {
        v := 0;
      }
    }

    method ComputePlainSymbol(i: nat) returns (v: int)
      requires Valid()
      requires At(cfg, i).Symbol? && IsTriType(At(cfg, i).origType) && !At(cfg, i).isConstant
      requires At(cfg, i).choice.None?
      modifies this`cache
      ensures Valid() && Within(old(cache), cache)
      ensures v == TriValue(cfg, user, i, Truth()) && Known(TriReads(cfg, user, i, Truth()))
      decreases rank(KTri(i)), 2, 1
    {
      hide Modest, Scratch, Coherent, Acyclic, Sane, AllAvail, ExprValue, ExprReads, ExprKeys, RanksBelow,
        ImpliedReads, SelectedTri, TypeKeys, DefaultKeys;
      var s := At(cfg, i);
      ghost var r := rank(KTri(i));
      TriRanks(cfg, rank, i);
      v := ComputeSelected(i);
      ghost var seen := SelectedReads(cfg, user, i, Truth());
      ghost var c := cache;
      if v == 1 {
        // m becomes y for bools and for symbols implied by y.
        var t := TypeOf(i, r);
        AvailAdds(cfg, user, Truth(), c, cache, seen, TypeReads(cfg, s, Truth()));
        seen := seen + TypeReads(cfg, s, Truth());
        c := cache;
        if t == Bool {
          v := 2;
        } else {
          var w := EvalExpr(s.weakRevDep, r);
          AvailAdds(cfg, user, Truth(), c, cache, seen, ExprReads(cfg, s.weakRevDep, Truth()));
          seen := seen + ExprReads(cfg, s.weakRevDep, Truth());
          if w == 2 { v := 2; }
        }
      }
      AvailSubset(cfg, user, Truth(), cache, seen, TriReads(cfg, user, i, Truth()));
    }

    /** The user's value or the defaults, raised by reverse dependencies. */
    method ComputeSelected(i: nat) returns (v: int)
      requires Valid()
      requires At(cfg, i).Symbol? && IsTriType(At(cfg, i).origType) && !At(cfg, i).isConstant
      requires At(cfg, i).choice.None?
      modifies this`cache
      ensures Valid() && Within(old(cache), cache)
      ensures v == SelectedTri(cfg, user, i, Truth()) && Known(SelectedReads(cfg, user, i, Truth()))
      decreases rank(KTri(i)), 2, 0
    {
      hide Modest, Scratch, Coherent, Acyclic, Sane, AllAvail, ExprValue, ExprReads, ExprKeys, RanksBelow,
        ImpliedTri, ImpliedReads, TypeKeys, DefaultKeys;
      var s := At(cfg, i);
      ghost var r := rank(KTri(i));
      TriRanks(cfg, rank, i);
      var vis := Visibility(i);
      ghost var seen: set<Key> := {KVis(i)};
      ghost var c := cache;
      if vis != 0 && i in user.tri {
        v := Min(user.tri[i], vis);
      } else {
        v := ComputeImplied(i);
        AvailAdds(cfg, user, Truth(), c, cache, seen, ImpliedReads(cfg, s, Truth()));
        seen := seen + ImpliedReads(cfg, s, Truth());
      }
      c := cache;
      var dep := EvalExpr(s.revDep, r);
      AvailAdds(cfg, user, Truth(), c, cache, seen, ExprReads(cfg, s.revDep, Truth()));
      seen := seen + ExprReads(cfg, s.revDep, Truth());
      c := cache;
      if dep != 0 {
        // The direct dependencies are consulted for a warning only.
        var _ := EvalExpr(s.directDep, r);
        AvailAdds(cfg, user, Truth(), c, cache, seen, ExprReads(cfg, s.directDep, Truth()));
        seen := seen + ExprReads(cfg, s.directDep, Truth());
        v := Max(dep, v);
      }
      AvailSubset(cfg, user, Truth(), cache, seen, SelectedReads(cfg, user, i, Truth()));
    }

    /** Defaults and weak reverse dependencies. */
    method ComputeImplied(i: nat) returns (v: int)
      requires Valid()
      requires At(cfg, i).Symbol? && IsTriType(At(cfg, i).origType) && !At(cfg, i).isConstant
      requires At(cfg, i).choice.None?
      modifies this`cache
      ensures Valid() && Within(old(cache), cache)
      ensures v == ImpliedTri(cfg, At(cfg, i), Truth()) && Known(ImpliedReads(cfg, At(cfg, i), Truth()))
      decreases rank(KTri(i)), 1, 3
    {
      hide Modest, Scratch, Coherent, Acyclic, Sane, AllAvail, Within, ExprValue, ExprReads, ExprKeys, RanksBelow,
          DefaultKeys, CondKeys,
        TypeKeys, CondReads, ActiveDefault;
      var s := At(cfg, i);
      ghost var r := rank(KTri(i));
      TriRanks(cfg, rank, i);
      v := ComputeDefault(i);
      ghost var seen := DefaultTriReads(cfg, s.defaults, Truth());
      ghost var c := cache;
      var w := EvalExpr(s.weakRevDep, r);
      WithinChains(old(cache), c, cache);
      AvailAdds(cfg, user, Truth(), c, cache, seen, ExprReads(cfg, s.weakRevDep, Truth()));
      seen := seen + ExprReads(cfg, s.weakRevDep, Truth());
      c := cache;
      if w != 0 {
        var direct := EvalExpr(s.directDep, r);
        WithinChains(old(cache), c, cache);
        AvailAdds(cfg, user, Truth(), c, cache, seen, ExprReads(cfg, s.directDep, Truth()));
        seen := seen + ExprReads(cfg, s.directDep, Truth());
        if direct != 0 { v := Max(w, v); }
      }
      AvailSubset(cfg, user, Truth(), cache, seen, ImpliedReads(cfg, s, Truth()));
    }

    /** The first default in force. */
    method ComputeDefault(i: nat) returns (v: int)
      requires Valid()
      requires At(cfg, i).Symbol? && IsTriType(At(cfg, i).origType) && !At(cfg, i).isConstant
      requires At(cfg, i).choice.None?
      modifies this`cache
      ensures Valid() && Within(old(cache), cache)
      ensures v == DefaultTri(cfg, At(cfg, i).defaults, Truth()) &&
              Known(DefaultTriReads(cfg, At(cfg, i).defaults, Truth()))
      decreases rank(KTri(i)), 1, 3, 0
    {
      hide Modest, Scratch, Coherent, Acyclic, Sane, AllAvail, Within, ExprValue, ExprReads, ExprKeys, RanksBelow,
          DefaultKeys, CondKeys,
        TypeKeys, CondReads, ActiveDefault;
      var ds := At(cfg, i).defaults;
      ghost var r := rank(KTri(i));
      TriRanks(cfg, rank, i);
      CondsBelow(cfg, rank, ds, r);
      var d, cond := FindDefault(ds, r);
      ghost var seen := CondReads(cfg, ds, 0, Truth());
      ghost var c := cache;
      v := 0;
      if d.Some? {
        DefaultRanks(cfg, rank, ds, r, d.value);
        var x := EvalExpr(ds[d.value].value, r);
        WithinChains(old(cache), c, cache);
        AvailAdds(cfg, user, Truth(), c, cache, seen, ExprReads(cfg, ds[d.value].value, Truth()));
        seen := seen + ExprReads(cfg, ds[d.value].value, Truth());
        v := Min(x, cond);
      }
      AvailSubset(cfg, user, Truth(), cache, seen, DefaultTriReads(cfg, ds, Truth()));
    }

    /** The loop over defaults: the first one whose condition is not n. */
    method FindDefault(ds: seq<Default>, ghost r: nat) returns (d: Option<nat>, cond: int)
      requires Valid()
      requires RanksBelow(rank, CondKeys(cfg, ds), r)
      modifies this`cache
      ensures Valid() && Within(old(cache), cache)
      ensures d == ActiveDefault(cfg, ds, 0, Truth()) && Known(CondReads(cfg, ds, 0, Truth()))
      ensures d.Some? ==> cond == ExprValue(cfg, ds[d.value].cond, Truth())
      decreases r, 1, 2
    {
      hide Modest, Scratch, Coherent, Acyclic, Sane, AllAvail, ExprValue, ExprReads, ExprKeys, CondKeys, RanksBelow;
      var k := 0;
      cond := 0;
      while k < |ds|
        invariant Valid() && Within(old(cache), cache)
        invariant k <= |ds|
        invariant CondsSeen(cfg, user, Truth(), cache, ds, k)
      {
        ghost var c := cache;
        CondRanks(cfg, rank, ds, r, k);
        cond := EvalExpr(ds[k].cond, r);
        CondsSeenGrows(cfg, user, Truth(), c, cache, ds, k);
        if cond != 0 {
          CondFound(cfg, user, Truth(), cache, ds, k);
          return Some(k), cond;
        }
        k := k + 1;
      }
      CondsSkipped(cfg, user, Truth(), cache, ds, 0, k);
      return None, 0;
    }

    /** `Symbol.str_value` */
    method Text(i: nat) returns (v: string)
      requires Valid()
      modifies this`cache
      ensures Valid() && Within(old(cache), cache)
      ensures v == Truth().str(i) && Known({KStr(i)})
      decreases rank(KStr(i)), 3
    {
      hide Modest, Scratch, Coherent, Acyclic, Sane, StrValue, StrReads;
      if i in cache.str {
        CachedIsRight(cfg, user, Truth(), cache, KStr(i));
        return cache.str[i];
      }
      v := ComputeText(i);
      ScratchSolves(cfg, user, rank, KStr(i));
      if i in cache.str { CachedIsRight(cfg, user, Truth(), cache, KStr(i)); }
      ghost var c := cache;
      cache := cache.(str := cache.str[i := v]);
      StoreCoherent(cfg, user, Truth(), c, cache, KStr(i));
    }

    method ComputeText(i: nat) returns (v: string)
      requires Valid()
      modifies this`cache
      ensures Valid() && Within(old(cache), cache)
      ensures v == StrValue(cfg, user, i, Truth()) && Known(StrReads(cfg, user, i, Truth()))
      decreases rank(KStr(i)), 2, 2
    {
      hide Modest, Scratch, Coherent, Acyclic, Sane;
      var s := At(cfg, i);
      if !s.Symbol? {
        v := "";
      } else if IsTriType(s.origType) {
        TextRanks(cfg, rank, i);
        var t := Tri(i);
        v := TriName(t);
      } else if s.origType == Unknown {
        v := s.name;
      } else if s.origType == Str {
        v := ComputeString(i);
      } else {
        v := ComputeNumber(i);
      }
    }

    method ComputeString(i: nat) returns (v: string)
      requires Valid()
      requires At(cfg, i).Symbol? && At(cfg, i).origType == Str
      modifies this`cache
      ensures Valid() && Within(old(cache), cache)
      ensures v == StrValue(cfg, user, i, Truth()) && Known(StrReads(cfg, user, i, Truth()))
      decreases rank(KStr(i)), 2, 1
    {
      hide Modest, Scratch, Coherent, Acyclic, Sane;
      TextRanks(cfg, rank, i);
      var vis := Visibility(i);
      if vis != 0 && i in user.text { return user.text[i]; }
      ghost var c := cache;
      v := DefaultTextOf(i);
      AvailGrows(cfg, user, Truth(), c, cache, {KVis(i)});
    }

    method DefaultTextOf(i: nat) returns (v: string)
      requires Valid()
      requires At(cfg, i).Symbol? && At(cfg, i).origType != Unknown && !IsTriType(At(cfg, i).origType)
      modifies this`cache
      ensures Valid() && Within(old(cache), cache)
      ensures v == DefaultText(cfg, At(cfg, i).defaults, Truth())
      ensures Known(DefaultTextReads(cfg, At(cfg, i).defaults, Truth()))
      decreases rank(KStr(i)), 1, 3
    {
      hide Modest, Scratch, Coherent, Acyclic, Sane;
      var ds := At(cfg, i).defaults;
      TextRanks(cfg, rank, i);
      var d, _ := FindDefault(ds, rank(KStr(i)));
      v := "";
      ghost var c := cache;
      if d.Some? && ds[d.value].value.Atom? {
        assert ds[d.value] in ds;
        v := Text(ds[d.value].value.item);
        AvailGrows(cfg, user, Truth(), c, cache, CondReads(cfg, ds, 0, Truth()));
      }
    }

    method ComputeNumber(i: nat) returns (v: string)
      requires Valid()
      requires At(cfg, i).Symbol? && (At(cfg, i).origType == Int || At(cfg, i).origType == Hex)
      modifies this`cache
      ensures Valid() && Within(old(cache), cache)
      ensures v == StrValue(cfg, user, i, Truth()) && Known(StrReads(cfg, user, i, Truth()))
      decreases rank(KStr(i)), 2, 1
    {
      hide Modest, Scratch, Coherent, Acyclic, Sane, AllAvail, Within, RangeReads, DefaultTextReads, DefaultText,
        BoundsOf;
      var s := At(cfg, i);
      TextRanks(cfg, rank, i);
      var vis := Visibility(i);
      ghost var c := cache;
      var b := FindBounds(i);
      WithinChains(old(cache), c, cache);
      ghost var seen := {KVis(i)} + RangeReads(cfg, s.ranges, 0, Truth());
      AvailAdds(cfg, user, Truth(), c, cache, {KVis(i)}, RangeReads(cfg, s.ranges, 0, Truth()));
      c := cache;
      if vis != 0 && i in user.text && user.text[i] != "" && InBounds(Number(cfg, s.origType, user.text[i]), b) {
        AvailSubset(cfg, user, Truth(), cache, seen, StrReads(cfg, user, i, Truth()));
        return user.text[i];
      }
      // No usable user value: the default, clamped into the range in force.
      v := DefaultTextOf(i);
      WithinChains(old(cache), c, cache);
      AvailAdds(cfg, user, Truth(), c, cache, seen, DefaultTextReads(cfg, s.defaults, Truth()));
      seen := seen + DefaultTextReads(cfg, s.defaults, Truth());
      AvailSubset(cfg, user, Truth(), cache, seen, StrReads(cfg, user, i, Truth()));
      var n := Number(cfg, s.origType, v);
      if b.Bounded? {
        if n < b.low {
          v := cfg.format(s.origType, b.low);
        } else if n > b.high {
          v := cfg.format(s.origType, b.high);
        }
      }
    }

    /** The loop over ranges: the bounds of the first one in force. */
    method FindBounds(i: nat) returns (b: Bounds)
      requires Valid()
      requires At(cfg, i).Symbol? && (At(cfg, i).origType == Int || At(cfg, i).origType == Hex)
      modifies this`cache
      ensures Valid() && Within(old(cache), cache)
      ensures b == BoundsOf(cfg, At(cfg, i), Truth()) && Known(RangeReads(cfg, At(cfg, i).ranges, 0, Truth()))
      decreases rank(KStr(i)), 1, 3
    {
      hide Modest, Scratch, Coherent, Acyclic, Sane, AllAvail, Within, ExprValue, ExprReads, ExprKeys, RanksBelow;
      var s := At(cfg, i);
      var rs := s.ranges;
      var k := 0;
      NothingNeeded(cfg, user, Truth(), cache);
      while k < |rs|
        invariant Valid() && Within(old(cache), cache)
        invariant k <= |rs|
        invariant RangesSeen(cfg, user, Truth(), cache, rs, k)
      {
        ghost var c := cache;
        assert rs[k] in rs;
        TextRanks(cfg, rank, i);
        var cond := EvalExpr(rs[k].cond, rank(KStr(i)));
        WithinChains(old(cache), c, cache);
        RangesSeenGrows(cfg, user, Truth(), c, cache, rs, k);
        if cond != 0 {
          c := cache;
          b := ReadBounds(i, k);
          WithinChains(old(cache), c, cache);
          return;
        }
        k := k + 1;
      }
      NoRangeReads(cfg, rs, Truth());
      NothingNeeded(cfg, user, Truth(), cache);
      RangesSkipped(cfg, user, Truth(), cache, rs, 0, k);
      return Unbounded;
    }

    method ReadBounds(i: nat, k: nat) returns (b: Bounds)
      requires Valid()
      requires At(cfg, i).Symbol? && (At(cfg, i).origType == Int || At(cfg, i).origType == Hex)
      requires k < |At(cfg, i).ranges|
      requires RangesSeen(cfg, user, Truth(), cache, At(cfg, i).ranges, k)
      requires ExprValue(cfg, At(cfg, i).ranges[k].cond, Truth()) != 0
      requires Known(ExprReads(cfg, At(cfg, i).ranges[k].cond, Truth()))
      modifies this`cache
      ensures Valid() && Within(old(cache), cache)
      ensures b == BoundsOf(cfg, At(cfg, i), Truth()) && Known(RangeReads(cfg, At(cfg, i).ranges, 0, Truth()))
      decreases rank(KStr(i)), 1, 2
    {
      hide Modest, Scratch, Coherent, Acyclic, Sane;
      var s := At(cfg, i);
      var rs := s.ranges;
      ghost var c := cache;
      assert rs[k] in rs;
      TextRanks(cfg, rank, i);
      var low := Text(rs[k].low);
      ghost var c1 := cache;
      var high := Text(rs[k].high);
      AvailGrows(cfg, user, Truth(), c1, cache, {KStr(rs[k].low)});
      assert Avail(cfg, user, Truth(), cache, KStr(rs[k].low)) && Avail(cfg, user, Truth(), cache, KStr(rs[k].high));
      RangesSeenGrows(cfg, user, Truth(), c, cache, rs, k);
      AvailGrows(cfg, user, Truth(), c, cache, ExprReads(cfg, rs[k].cond, Truth()));
      assert Known(RangeReads(cfg, rs, k, Truth()));
      RangesSkipped(cfg, user, Truth(), cache, rs, 0, k);
      b := Bounded(Number(cfg, s.origType, low), Number(cfg, s.origType, high));
    }

    /** `Choice.selection` */
    method Selection(i: nat) returns (v: Option<nat>)
      requires Valid()
      modifies this`cache
      ensures Valid() && Within(old(cache), cache)
      ensures v == Truth().sel(i) && Known({KSel(i)})
      decreases rank(KSel(i)), 3
    {
      hide Modest, Scratch, Coherent, Acyclic, Sane, SelValue, SelReads;
      if i in cache.sel {
        CachedIsRight(cfg, user, Truth(), cache, KSel(i));
        return cache.sel[i];
      }
      v := ComputeSelection(i);
      ScratchSolves(cfg, user, rank, KSel(i));
      if i in cache.sel { CachedIsRight(cfg, user, Truth(), cache, KSel(i)); }
      ghost var c := cache;
      cache := cache.(sel := cache.sel[i := v]);
      StoreCoherent(cfg, user, Truth(), c, cache, KSel(i));
    }

    /** `Choice._selection` */
    method ComputeSelection(i: nat) returns (v: Option<nat>)
      requires Valid()
      modifies this`cache
      ensures Valid() && Within(old(cache), cache)
      ensures v == SelValue(cfg, user, i, Truth()) && Known(SelReads(cfg, user, i, Truth()))
      decreases rank(KSel(i)), 2
    {
      hide Modest, Scratch, Coherent, Acyclic, Sane, FromDefaults, FromDefaultsReads, FirstVisible,
        FirstVisibleReads, CondKeys,
        RanksBelow, AllAvail, Within;
      var s := At(cfg, i);
      if !s.Choice? {
        NothingNeeded(cfg, user, Truth(), cache);
        return None;
      }
      SelRanks(cfg, rank, i);
      var mode := Mode(i);
      if mode != 2 { return None; }
      ghost var seen: set<Key> := {KMode(i)};
      ghost var c := cache;
      if i in user.sel {
        // The user's selection counts while it is visible.
        assert user.sel[i] in s.syms;
        var vis := Visibility(user.sel[i]);
        WithinChains(old(cache), c, cache);
        AvailAdds(cfg, user, Truth(), c, cache, seen, {KVis(user.sel[i])});
        seen := seen + {KVis(user.sel[i])};
        if vis != 0 {
          AvailSubset(cfg, user, Truth(), cache, seen, SelReads(cfg, user, i, Truth()));
          return Some(user.sel[i]);
        }
      }
      c := cache;
      v := SelectionFromDefaults(i, 0);
      WithinChains(old(cache), c, cache);
      AvailAdds(cfg, user, Truth(), c, cache, seen, FromDefaultsReads(cfg, s.choiceDefaults, 0, Truth()));
      seen := seen + FromDefaultsReads(cfg, s.choiceDefaults, 0, Truth());
      if v.None? {
        c := cache;
        v := FirstVisibleSymbol(i, 0);
        WithinChains(old(cache), c, cache);
        AvailAdds(cfg, user, Truth(), c, cache, seen, FirstVisibleReads(s.syms, 0, Truth()));
        seen := seen + FirstVisibleReads(s.syms, 0, Truth());
      }
      AvailSubset(cfg, user, Truth(), cache, seen, SelReads(cfg, user, i, Truth()));
    }

    method SelectionFromDefaults(i: nat, k: nat) returns (v: Option<nat>)
      requires Valid()
      requires At(cfg, i).Choice? && k <= |At(cfg, i).choiceDefaults|
      modifies this`cache
      ensures Valid() && Within(old(cache), cache)
      ensures v == FromDefaults(cfg, At(cfg, i).choiceDefaults, k, Truth())
      ensures Known(FromDefaultsReads(cfg, At(cfg, i).choiceDefaults, k, Truth()))
      decreases rank(KSel(i)), 1, 5, |At(cfg, i).choiceDefaults| - k
    {
      hide Modest, Scratch, Coherent, Acyclic, Sane, CondKeys, RanksBelow, ExprKeys, ExprReads, ExprValue;
      var ds := At(cfg, i).choiceDefaults;
      if k == |ds| { return None; }
      assert ds[k] in ds;
      if !ds[k].value.Atom? {
        v := SelectionFromDefaults(i, k + 1);
        return;
      }
      var x := ds[k].value.item;
      SelRanks(cfg, rank, i);
      CondRanks(cfg, rank, ds, rank(KSel(i)), k);
      var cond := EvalExpr(ds[k].cond, rank(KSel(i)));
      ghost var seen := ExprReads(cfg, ds[k].cond, Truth());
      ghost var c := cache;
      if cond != 0 {
        var vis := Visibility(x);
        AvailAdds(cfg, user, Truth(), c, cache, seen, {KVis(x)});
        seen := seen + {KVis(x)};
        if vis != 0 { return Some(x); }
      }
      c := cache;
      v := SelectionFromDefaults(i, k + 1);
      AvailGrows(cfg, user, Truth(), c, cache, seen);
    }

    method FirstVisibleSymbol(i: nat, k: nat) returns (v: Option<nat>)
      requires Valid()
      requires At(cfg, i).Choice? && k <= |At(cfg, i).syms|
      modifies this`cache
      ensures Valid() && Within(old(cache), cache)
      ensures v == FirstVisible(At(cfg, i).syms, k, Truth())
      ensures Known(FirstVisibleReads(At(cfg, i).syms, k, Truth()))
      decreases rank(KSel(i)), 1, 4, |At(cfg, i).syms| - k
    {
      hide Modest, Scratch, Coherent, Acyclic, Sane;
      var syms := At(cfg, i).syms;
      if k == |syms| { return None; }
      assert syms[k] in syms;
      SelRanks(cfg, rank, i);
      var vis := Visibility(syms[k]);
      if vis != 0 { return Some(syms[k]); }
      ghost var c := cache;
      v := FirstVisibleSymbol(i, k + 1);
      AvailGrows(cfg, user, Truth(), c, cache, {KVis(syms[k])});
    }

    /** `expr_value` */
    method EvalExpr(e: Expr, ghost r: nat) returns (v: int)
      requires Valid()
      requires RanksBelow(rank, ExprKeys(cfg, e), r)
      modifies this`cache
      ensures Valid() && Within(old(cache), cache)
      ensures v == ExprValue(cfg, e, Truth()) && Known(ExprReads(cfg, e, Truth()))
      decreases r, 1, 1, e
    {
      hide Modest, Scratch, Coherent, Acyclic, Sane;
      match e
      case Atom(i) =>
        if At(cfg, i).Choice? { v := Mode(i); } else { v := Tri(i); }
      case And(x, y) =>
        v := EvalExpr(x, r);
        if v != 0 {
          ghost var c := cache;
          var w := EvalExpr(y, r);
          AvailGrows(cfg, user, Truth(), c, cache, ExprReads(cfg, x, Truth()));
          v := Min(v, w);
        }
      case Or(x, y) =>
        v := EvalExpr(x, r);
        if v != 2 {
          ghost var c := cache;
          var w := EvalExpr(y, r);
          AvailGrows(cfg, user, Truth(), c, cache, ExprReads(cfg, x, Truth()));
          v := Max(v, w);
        }
      case Not(x) =>
        v := EvalExpr(x, r);
        v := 2 - v;
      case Rel(op, a, b) =>
        var comp := EvalCompare(a, b, r);
        v := if Holds(op, comp) then 2 else 0;
    }

    /** The comparison of a relation: numbers if both operands are, else texts. */
    method EvalCompare(a: nat, b: nat, ghost r: nat) returns (comp: int)
      requires Valid()
      requires rank(NumKey(cfg, a)) < r && rank(NumKey(cfg, b)) < r && rank(KStr(a)) < r && rank(KStr(b)) < r
      modifies this`cache
      ensures Valid() && Within(old(cache), cache)
      ensures comp == Compare(cfg, a, b, Truth()) && Known(CompareReads(cfg, a, b, Truth()))
      decreases r, 1, 0
    {
      hide Modest, Scratch, Coherent, Acyclic, Sane;
      ghost var seen: set<Key> := {};
      ghost var c := cache;
      if !BothText(cfg, a, b) {
        var x := AsNumber(a, r);
        seen := seen + {NumKey(cfg, a)};
        if x.Some? {
          c := cache;
          var y := AsNumber(b, r);
          AvailAdds(cfg, user, Truth(), c, cache, seen, {NumKey(cfg, b)});
          seen := seen + {NumKey(cfg, b)};
          if y.Some? { return x.value - y.value; }
        }
      }
      c := cache;
      var s := Text(a);
      AvailAdds(cfg, user, Truth(), c, cache, seen, {KStr(a)});
      seen := seen + {KStr(a)};
      c := cache;
      var t := Text(b);
      AvailAdds(cfg, user, Truth(), c, cache, seen, {KStr(b)});
      seen := seen + {KStr(b)};
      AvailSubset(cfg, user, Truth(), cache, seen, CompareReads(cfg, a, b, Truth()));
      comp := StrCmp(s, t);
    }

    /** `_sym_to_num` */
    method AsNumber(i: nat, ghost r: nat) returns (n: Option<int>)
      requires Valid()
      requires rank(NumKey(cfg, i)) < r
      modifies this`cache
      ensures Valid() && Within(old(cache), cache)
      ensures n == NumOf(cfg, i, Truth()) && Known({NumKey(cfg, i)})
      decreases r, 0
    {
      hide Modest, Scratch, Coherent, Acyclic, Sane;
      if IsTriType(At(cfg, i).origType) {
        var v := Tri(i);
        n := Some(v);
      } else {
        var s := Text(i);
        n := cfg.parse(At(cfg, i).origType, s);
      }
    }

    // -------------------------------------------------------------- invalidation

    /** `_invalidate` */
    method Drop(i: nat)
      modifies this`cache
      ensures cache == Without(old(cache), {i})
    {
      cache := Without(cache, {i});
    }

    /** `_invalidate_all` */
    method DropAll()
      modifies this`cache
      ensures cache == Without(old(cache), GraphItems(cfg))
    {
      cache := Without(cache, GraphItems(cfg));
    }

    /**
      `_rec_invalidate`.  It stops at items without a cached visibility, and
      terminates on choice loops because every nested call finds fewer items
      with a cached visibility.
     */
    method RecInvalidate(i: nat)
      requires InGraph(At(cfg, i))
      modifies this`cache
      ensures Invalidation(cfg, i, old(cache), cache)
      decreases cache.vis.Keys - {i}
    {
      hide Partial, Invalidation, Dependents, Within;
      ghost var before := cache;
      if i == cfg.modules {
        DropAll();
        AllDroppedIsInvalidation(cfg, i, before);
        return;
      }
      Drop(i);
      PartialStarts(cfg, i, before);
      var todo := Dependents(cfg, i);
      ghost var done: set<nat> := {};
      while todo != {}
        invariant todo + done == Dependents(cfg, i)
        invariant Partial(cfg, i, before, cache, done)
        invariant cache.vis.Keys <= before.vis.Keys - {i}
        decreases todo
      {
        var d :| d in todo;
        ghost var c := cache;
        if d in cache.vis {
          DependentInGraph(cfg, i, d);
          RecInvalidate(d);
          PartialExtends(cfg, i, before, c, cache, done, d);
        } else {
          PartialSkips(cfg, i, before, c, done, d);
        }
        todo := todo - {d};
        done := done + {d};
      }
      PartialEnds(cfg, i, before, cache);
    }

    // -------------------------------------------------------------- assignments

    /** `_rec_invalidate_if_has_prompt`, after the user value of `i` changed from `u`. */
    method InvalidateIfHasPrompt(i: nat, ghost u: User)
      requires Acyclic(cfg, rank) && Sane(cfg) && UserOk(cfg, u) && UserOk(cfg, user) && Modest(user)
      requires Coherent(cfg, u, Scratch(cfg, u, rank), cache)
      requires At(cfg, i).Symbol? && forall j :: j != i ==> SameUser(u, user, j)
      modifies this`cache
      ensures Valid()
    {
      ghost var before := cache;
      if At(cfg, i).prompts != [] {
        assert SaneItem(cfg, i);
        RecInvalidate(i);
        SurvivorsClosed(cfg, u, rank, i, before, cache);
      }
      SurvivorsCoherent(cfg, u, user, rank, before, cache);
    }

    /** `Symbol.set_value` */
    method SetValue(i: nat, given: Value) returns (ok: bool)
      requires Valid() && At(cfg, i).Symbol?
      modifies this
      ensures Valid()
      ensures var s := At(cfg, i); var value := Converted(s.origType, given);
              && ok == ((AlreadySet(old(user), i, value) && s.choice.None?) || IsValidFor(cfg, s.origType, value))
              && user == if ok then Assigned(cfg, old(user), i, value) else old(user)
    {
      hide Scratch, Coherent, Acyclic, Sane;
      var s := At(cfg, i);
      var value := Converted(s.origType, given);
      if AlreadySet(user, i, value) && s.choice.None? {
        AssignedAgain(cfg, user, i, value);
        return true;
      }
      if !IsValidFor(cfg, s.origType, value) { return false; }
      ghost var u := user;
      user := Assigned(cfg, user, i, value);
      AssignedOk(cfg, u, i, value);
      if s.choice.Some? && value == VTri(2) {
        InvalidateOwnChoice(i, u);
      } else {
        InvalidateIfHasPrompt(i, u);
      }
      return true;
    }

    /** After y was assigned to a choice symbol, its choice is invalidated. */
    method InvalidateOwnChoice(i: nat, ghost u: User)
      requires Acyclic(cfg, rank) && Sane(cfg) && UserOk(cfg, u) && UserOk(cfg, user) && Modest(user)
      requires Coherent(cfg, u, Scratch(cfg, u, rank), cache)
      requires At(cfg, i).Symbol? && At(cfg, i).choice.Some? && IsTriType(At(cfg, i).origType)
      requires user == Assigned(cfg, u, i, VTri(2))
      modifies this`cache
      ensures Valid()
    {
      hide Modest, Scratch, Coherent, Acyclic, Sane, Invalidation, Closed;
      var s := At(cfg, i);
      ghost var before := cache;
      ChoiceExists(cfg, i);
      RecInvalidate(s.choice.value);
      SurvivorsClosed(cfg, u, rank, s.choice.value, before, cache);
      forall k: Key | Has(cache, k) ensures SameUser(u, user, k.i) || Indifferent(cfg, k) {
        OwnChoiceSurvivor(cfg, u, rank, i, before, cache, k);
      }
      SurvivorsWithin(cfg, s.choice.value, before, cache);
      SurvivorsCoherent(cfg, u, user, rank, before, cache);
    }

    /** `Symbol.unset_value` */
    method UnsetValue(i: nat)
      requires Valid() && At(cfg, i).Symbol?
      modifies this
      ensures Valid() && user == Unassigned(old(user), i)
    {
      hide Scratch, Coherent, Acyclic, Sane;
      if i in user.tri || i in user.text {
        ghost var u := user;
        user := Unassigned(user, i);
        InvalidateIfHasPrompt(i, u);
      } else {
        assert i !in user.sel;
        assert Unassigned(user, i) == user;
      }
    }

    /** Invalidation of a choice whose mode or selection changed from `u`. */
    method InvalidateChoice(i: nat, ghost u: User)
      requires Acyclic(cfg, rank) && Sane(cfg) && UserOk(cfg, u) && UserOk(cfg, user) && Modest(user)
      requires Coherent(cfg, u, Scratch(cfg, u, rank), cache)
      requires At(cfg, i).Choice? && forall j :: j != i ==> SameUser(u, user, j)
      modifies this`cache
      ensures Valid()
    {
      ghost var before := cache;
      RecInvalidate(i);
      SurvivorsClosed(cfg, u, rank, i, before, cache);
      SurvivorsCoherent(cfg, u, user, rank, before, cache);
    }

    /** `Choice.set_value` */
    method SetMode(i: nat, given: Value) returns (ok: bool)
      requires Valid() && At(cfg, i).Choice?
      modifies this
      ensures Valid()
      ensures var value := Converted(Tristate, given);
              && ok == (AlreadySet(old(user), i, value) || (value.VTri? && IsValidFor(cfg, At(cfg, i).origType, value)))
              && user == if ok then Assigned(cfg, old(user), i, value) else old(user)
    {
      var value := Converted(Tristate, given);
      if AlreadySet(user, i, value) {
        assert Assigned(cfg, user, i, value) == user;
        return true;
      }
      if !value.VTri? || !IsValidFor(cfg, At(cfg, i).origType, value) { return false; }
      ghost var u := user;
      user := Assigned(cfg, user, i, value);
      InvalidateChoice(i, u);
      return true;
    }

    /** `Choice.unset_value` */
    method UnsetMode(i: nat)
      requires Valid() && At(cfg, i).Choice?
      modifies this
      ensures Valid() && user == Unassigned(old(user), i)
    {
      hide Scratch, Coherent, Acyclic, Sane;
      if i in user.tri || i in user.sel || i in user.text {
        ghost var u := user;
        user := Unassigned(user, i);
        InvalidateChoice(i, u);
      } else {
        assert Unassigned(user, i) == user;
      }
    }

    // -------------------------------------------------------------- runs

    method Perform(op: Op) returns (out: Out)
      requires Valid() && OpOk(cfg, op)
      modifies this
      ensures Valid()
      ensures user == PlainUser(cfg, old(user), op)
      ensures out == PlainOut(cfg, rank, old(user), op)
    {
      hide Scratch, Coherent, Acyclic, Sane, IsValidFor;
      match op
      case Set(i, x) => var ok := SetValue(i, x); out := Ack(ok);
      case SetChoice(i, x) => var ok := SetMode(i, x); out := Ack(ok);
      case Unset(i) => UnsetValue(i); out := Ack(true);
      case UnsetChoice(i) => UnsetMode(i); out := Ack(true);
      case GetVis(i) => var v := Visibility(i); out := Num(v);
      case GetTri(i) => var v := Tri(i); out := Num(v);
      case GetText(i) => var s := Text(i); out := Txt(s);
      case GetMode(i) => var v := Mode(i); out := Num(v);
      case GetSel(i) => var c := Selection(i); out := Chosen(c);
    }

    /** Over every run, the caching engine answers like the one without a cache. */
    method Run(ops: seq<Op>) returns (outs: seq<Out>)
      requires Valid() && forall op :: op in ops ==> OpOk(cfg, op)
      modifies this
      ensures Valid()
      ensures outs == PlainRun(cfg, rank, old(user), ops)
    {
      hide Modest, Scratch, Coherent, Acyclic, Sane, PlainOut, PlainUser, OpOk;
      outs := [];
      var k := 0;
      while k < |ops|
        invariant Valid() && k <= |ops|
        invariant PlainRun(cfg, rank, old(user), ops) == outs + PlainRun(cfg, rank, user, ops[k..])
      {
        ghost var u := user;
        assert ops[k] in ops && ops[k..][0] == ops[k] && ops[k..][1..] == ops[k + 1..];
        var out := Perform(ops[k]);
        assert PlainRun(cfg, rank, u, ops[k..]) == [out] + PlainRun(cfg, rank, user, ops[k + 1..]);
        outs := outs + [out];
        k := k + 1;
      }
    }
  }
}
