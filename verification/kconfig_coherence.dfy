/**
  What it means for cached attributes to be right, and why they stay right when
  the user changes a value and only part of the cache is dropped.

  The engine stops invalidation at items without a cached visibility.  That is
  sound because of `Coherent`: a cached attribute has everything its evaluation
  looked at in the cache too.  Attributes that short-circuiting skipped are not
  required to be cached.
 */
module KconfigCoherence {
  import opened Basics
  import opened KconfigValues
  import opened KconfigCongruence
  import opened KconfigScratch

  datatype Cache = Cache(vis: map<nat, int>, tri: map<nat, int>, str: map<nat, string>,
                         sel: map<nat, Option<nat>>)

  predicate Has(c: Cache, k: Key) {
    match k
    case KVis(i) => i in c.vis
    case KTri(i) => i in c.tri
    case KStr(i) => i in c.str
    case KSel(i) => i in c.sel
    case KMode(_) => false
  }

  ghost predicate Right(c: Cache, k: Key, env: Env)
    requires Has(c, k)
  {
    match k
    case KVis(i) => c.vis[i] == env.vis(i)
    case KTri(i) => c.tri[i] == env.tri(i)
    case KStr(i) => c.str[i] == env.str(i)
    case KSel(i) => c.sel[i] == env.sel(i)
  }

  /** `k` was computed and nothing it depends on has been dropped since. */
  ghost predicate Avail(cfg: Config, u: User, env: Env, c: Cache, k: Key) {
    match k
    case KMode(i) => forall d :: d in ModeReads(cfg, u, i, env) ==> Has(c, d)
    case _ => Has(c, k)
  }

  ghost predicate AllAvail(cfg: Config, u: User, env: Env, c: Cache, ks: set<Key>) {
    forall d :: d in ks ==> Avail(cfg, u, env, c, d)
  }

  ghost predicate Coherent(cfg: Config, u: User, env: Env, c: Cache) {
    forall k: Key :: Has(c, k) ==> Right(c, k, env) && AllAvail(cfg, u, env, c, Reads(cfg, u, k, env))
  }

  /** `d` holds everything `c` holds. */
  ghost predicate Within(c: Cache, d: Cache) {
    && (forall i :: i in c.vis ==> i in d.vis && c.vis[i] == d.vis[i])
    && (forall i :: i in c.tri ==> i in d.tri && c.tri[i] == d.tri[i])
    && (forall i :: i in c.str ==> i in d.str && c.str[i] == d.str[i])
    && (forall i :: i in c.sel ==> i in d.sel && c.sel[i] == d.sel[i])
  }

  lemma WithinChains(a: Cache, b: Cache, c: Cache)
    requires Within(a, b) && Within(b, c)
    ensures Within(a, c)
  {
  }

  predicate Empty(c: Cache, i: nat) {
    i !in c.vis && i !in c.tri && i !in c.str && i !in c.sel
  }

  lemma AvailGrows(cfg: Config, u: User, env: Env, c: Cache, d: Cache, ks: set<Key>)
    requires Within(c, d) && AllAvail(cfg, u, env, c, ks)
    ensures AllAvail(cfg, u, env, d, ks)
  {
    forall k | k in ks ensures Avail(cfg, u, env, d, k) {
      assert Avail(cfg, u, env, c, k);
    }
  }

  lemma AvailAdds(cfg: Config, u: User, env: Env, c: Cache, d: Cache, ks: set<Key>, more: set<Key>)
    requires Within(c, d) && AllAvail(cfg, u, env, c, ks) && AllAvail(cfg, u, env, d, more)
    ensures AllAvail(cfg, u, env, d, ks + more)
  {
    AvailGrows(cfg, u, env, c, d, ks);
  }

  lemma AvailSubset(cfg: Config, u: User, env: Env, c: Cache, ks: set<Key>, fewer: set<Key>)
    requires AllAvail(cfg, u, env, c, ks) && fewer <= ks
    ensures AllAvail(cfg, u, env, c, fewer)
  {
  }

  lemma CachedIsRight(cfg: Config, u: User, env: Env, c: Cache, k: Key)
    requires Coherent(cfg, u, env, c) && Has(c, k)
    ensures Right(c, k, env) && Avail(cfg, u, env, c, k)
  {
  }

  /** Storing one right value whose look-ups are all in place keeps coherence. */
  lemma StoreCoherent(cfg: Config, u: User, env: Env, c: Cache, d: Cache, k: Key)
    requires Coherent(cfg, u, env, c) && Within(c, d)
    requires Has(d, k) && Right(d, k, env) && AllAvail(cfg, u, env, c, Reads(cfg, u, k, env))
    requires forall x: Key :: Has(d, x) ==> x == k || Has(c, x)
    ensures Coherent(cfg, u, env, d)
  {
    forall x: Key | Has(d, x)
      ensures Right(d, x, env) && AllAvail(cfg, u, env, d, Reads(cfg, u, x, env))
    {
      AvailGrows(cfg, u, env, c, d, Reads(cfg, u, x, env));
    }
  }

  /**
    The visibility doubles as the "has cached values" flag: whatever is cached on
    an item and looked elsewhere has the item's visibility cached as well.
   */
  lemma VisibilityIsCached(cfg: Config, u: User, env: Env, c: Cache, k: Key, d: Key)
    requires Coherent(cfg, u, env, c) && Has(c, k)
    requires d in Reads(cfg, u, k, env) && d.i != k.i
    ensures k.i in c.vis
  {
    var i := k.i;
    var seen := Reads(cfg, u, k, env);
    match k {
      case KVis(_) =>
      case KTri(_) => assert KVis(i) in seen; assert Avail(cfg, u, env, c, KVis(i));
      case KStr(_) =>
        assert KVis(i) in seen; assert Avail(cfg, u, env, c, KVis(i));
      case KSel(_) =>
        assert KMode(i) in seen;
        assert Avail(cfg, u, env, c, KMode(i));
        assert KVis(i) in ModeReads(cfg, u, i, env);
    }
  }

  // ---------------------------------------------------------------- changing user values

  ghost predicate SameUser(u: User, v: User, i: nat) {
    && (i in u.tri <==> i in v.tri) && (i in u.tri ==> u.tri[i] == v.tri[i])
    && (i in u.text <==> i in v.text) && (i in u.text ==> u.text[i] == v.text[i])
    && (i in u.sel <==> i in v.sel) && (i in u.sel ==> u.sel[i] == v.sel[i])
  }

  predicate Promptless(cfg: Config, i: nat) {
    At(cfg, i).Symbol? && At(cfg, i).prompts == []
  }

  /** Attributes that no user value of their own item can affect. */
  predicate Indifferent(cfg: Config, k: Key) {
    Promptless(cfg, k.i) || (k.KSel? && !At(cfg, k.i).Choice?)
  }

  /** User values of other items, and of symbols without a prompt, never count. */
  lemma OnlyOwnUserCounts(cfg: Config, u: User, v: User, k: Key, env: Env)
    requires SameUser(u, v, k.i) || Indifferent(cfg, k)
    requires Promptless(cfg, k.i) ==> env.vis(k.i) == 0
    ensures Reads(cfg, u, k, env) == Reads(cfg, v, k, env)
    ensures match k
            case KVis(_) => true
            case KTri(i) => TriValue(cfg, u, i, env) == TriValue(cfg, v, i, env)
            case KStr(i) => StrValue(cfg, u, i, env) == StrValue(cfg, v, i, env)
            case KSel(i) => SelValue(cfg, u, i, env) == SelValue(cfg, v, i, env)
            case KMode(i) => ModeValue(cfg, u, i, env) == ModeValue(cfg, v, i, env)
  {
    match k {
      case KVis(_) =>
      case KTri(_) =>
      case KStr(i) =>
        var s := At(cfg, i);
        if s.Symbol? && !IsTriType(s.origType) && s.origType != Unknown && s.origType != Str {
          assert UserNumberCounts(cfg, u, i, BoundsOf(cfg, s, env), env)
              == UserNumberCounts(cfg, v, i, BoundsOf(cfg, s, env), env);
        }
      case KSel(_) =>
      case KMode(_) =>
    }
  }

  /** Every surviving entry had its own user value unchanged, or does not care. */
  ghost predicate UntouchedOwners(cfg: Config, u: User, v: User, c: Cache) {
    forall k: Key :: Has(c, k) ==> SameUser(u, v, k.i) || Indifferent(cfg, k)
  }

  /** What the surviving entries looked at has survived too. */
  ghost predicate Closed(cfg: Config, u: User, env: Env, c: Cache) {
    forall k: Key :: Has(c, k) ==> AllAvail(cfg, u, env, c, Reads(cfg, u, k, env))
  }

  lemma {:induction false} SurvivorUnchanged(cfg: Config, u: User, v: User, rank: Key -> nat, c: Cache, k: Key)
    requires Acyclic(cfg, rank) && UserOk(cfg, u) && UserOk(cfg, v)
    requires UntouchedOwners(cfg, u, v, c) && Closed(cfg, u, Scratch(cfg, u, rank), c)
    requires Avail(cfg, u, Scratch(cfg, u, rank), c, k)
    ensures SameAt(Scratch(cfg, u, rank), Scratch(cfg, v, rank), k)
    ensures Reads(cfg, u, k, Scratch(cfg, u, rank)) == Reads(cfg, v, k, Scratch(cfg, v, rank))
    decreases rank(k)
  {
    var env, env' := Scratch(cfg, u, rank), Scratch(cfg, v, rank);
    var seen := Reads(cfg, u, k, env);
    ReadsArePossible(cfg, u, k, env);
    forall d | d in seen ensures SameAt(env, env', d) {
      assert d in PossibleReads(cfg, k);
      SurvivorUnchanged(cfg, u, v, rank, c, d);
    }
    if k.KMode? {
      if At(cfg, k.i).Choice? { assert KVis(k.i) in seen; assert Has(c, KVis(k.i)); }
    } else {
      assert Has(c, k);
    }
    if Promptless(cfg, k.i) {
      ScratchSolves(cfg, u, rank, KVis(k.i));
      NoPromptsNoVisibility(cfg, k.i, env);
    }
    if !k.KMode? || At(cfg, k.i).Choice? { OnlyOwnUserCounts(cfg, u, v, k, env); }
    FormulaCongruent(cfg, v, k, env, env');
    ScratchSolves(cfg, u, rank, k);
    ScratchSolves(cfg, v, rank, k);
  }

  /** A closed part of a coherent cache is coherent for the new user values. */
  lemma SurvivorsCoherent(cfg: Config, u: User, v: User, rank: Key -> nat, old_: Cache, c: Cache)
    requires Acyclic(cfg, rank) && UserOk(cfg, u) && UserOk(cfg, v)
    requires Coherent(cfg, u, Scratch(cfg, u, rank), old_) && Within(c, old_)
    requires UntouchedOwners(cfg, u, v, c) && Closed(cfg, u, Scratch(cfg, u, rank), c)
    ensures Coherent(cfg, v, Scratch(cfg, v, rank), c)
  {
    var env, env' := Scratch(cfg, u, rank), Scratch(cfg, v, rank);
    forall k: Key | Has(c, k)
      ensures Right(c, k, env') && AllAvail(cfg, v, env', c, Reads(cfg, v, k, env'))
    {
      SurvivorUnchanged(cfg, u, v, rank, c, k);
      assert Has(old_, k) && Right(old_, k, env);
      forall d | d in Reads(cfg, u, k, env) ensures Avail(cfg, v, env', c, d) {
        assert Avail(cfg, u, env, c, d);
        SurvivorUnchanged(cfg, u, v, rank, c, d);
      }
    }
  }

  // ---------------------------------------------------------------- invalidation

  /** Item `j` lost its cached values on the way from `before` to `after`. */
  ghost predicate Lost(before: Cache, after: Cache, j: nat) {
    j in before.vis && j !in after.vis
  }

  ghost predicate AllDropped(cfg: Config, c: Cache) {
    forall i: nat :: InGraph(At(cfg, i)) ==> Empty(c, i)
  }

  /** Only whole items of the graph are dropped, and of those only cached ones. */
  ghost predicate WholeItems(cfg: Config, start: nat, before: Cache, after: Cache) {
    forall k: Key :: Has(before, k) && !Has(after, k) ==>
      && InGraph(At(cfg, k.i)) && Empty(after, k.i)
      && (k.i == start || k.i in before.vis || AllDropped(cfg, after))
  }

  ghost predicate DependentsDropped(cfg: Config, j: nat, c: Cache) {
    forall i :: i in Dependents(cfg, j) ==> i !in c.vis
  }

  /**
    The effect of `_rec_invalidate` on item `start`: whole items are dropped,
    every dependent of a dropped item ends up without cached values, and
    dropping MODULES drops everything that can be dropped.
   */
  ghost predicate Invalidation(cfg: Config, start: nat, before: Cache, after: Cache) {
    && Within(after, before)
    && Empty(after, start)
    && WholeItems(cfg, start, before, after)
    && (forall j :: j == start || Lost(before, after, j) ==> DependentsDropped(cfg, j, after))
    && (start == cfg.modules || Lost(before, after, cfg.modules) ==> AllDropped(cfg, after))
  }

  /** Nothing that survives an invalidation looked at anything that was dropped. */
  lemma SurvivorsClosed(cfg: Config, u: User, rank: Key -> nat, start: nat, before: Cache, after: Cache)
    requires Acyclic(cfg, rank) && Sane(cfg) && UserOk(cfg, u) && InGraph(At(cfg, start))
    requires Coherent(cfg, u, Scratch(cfg, u, rank), before)
    requires Invalidation(cfg, start, before, after)
    ensures Closed(cfg, u, Scratch(cfg, u, rank), after)
  {
    var env := Scratch(cfg, u, rank);
    forall k: Key, d: Key | Has(after, k) && d in Reads(cfg, u, k, env)
      ensures Avail(cfg, u, env, after, d)
    {
      assert Has(before, k) && AllAvail(cfg, u, env, before, Reads(cfg, u, k, env));
      assert Avail(cfg, u, env, before, d);
      if d.KMode? {
        forall e | e in ModeReads(cfg, u, d.i, env) ensures Has(after, e) {
          if !Has(after, e) { DropReachesReader(cfg, u, rank, start, before, after, k, d, e); }
        }
      } else if !Has(after, d) {
        DropReachesReader(cfg, u, rank, start, before, after, k, d, d);
      }
    }
  }

  /**
    Dropping what an entry `k` looked at drops `k`.  `e` is the attribute `d`
    itself or, when `d` is the uncached mode of a choice, something it is made from.
   */
  lemma DropReachesReader(cfg: Config, u: User, rank: Key -> nat, start: nat, before: Cache, after: Cache,
                          k: Key, d: Key, e: Key)
    requires Acyclic(cfg, rank) && Sane(cfg) && UserOk(cfg, u) && InGraph(At(cfg, start))
    requires Coherent(cfg, u, Scratch(cfg, u, rank), before)
    requires Invalidation(cfg, start, before, after)
    requires Has(before, k) && d in Reads(cfg, u, k, Scratch(cfg, u, rank))
    requires Has(before, e) && (e == d || (d.KMode? && e in ModeReads(cfg, u, d.i, Scratch(cfg, u, rank))))
    requires !Has(after, e)
    ensures !Has(after, k)
  {
    hide Scratch, Acyclic, Coherent, Reads, ModeReads, Dependents, Sane;
    var env := Scratch(cfg, u, rank);
    assert InGraph(At(cfg, e.i)) && Empty(after, e.i);
    if At(cfg, k.i).prompts == [] { HiddenWithoutPrompts(cfg, u, rank, k.i); }
    ReadsAreDependencies(cfg, u, k, env, d);
    if d.KMode? && e != d { ModeReadsOwnItem(cfg, u, d.i, env, e); }
    if e.i == cfg.modules || AllDropped(cfg, after) {
      assert AllDropped(cfg, after);
    } else if d.i != k.i {
      VisibilityIsCached(cfg, u, env, before, k, d);
      GraphNotConst(cfg, e.i);
      assert k.i in Dependents(cfg, e.i) && DependentsDropped(cfg, e.i, after);
      assert Has(before, KVis(k.i)) && !Has(after, KVis(k.i));
    }
  }

  lemma HiddenWithoutPrompts(cfg: Config, u: User, rank: Key -> nat, i: nat)
    requires Acyclic(cfg, rank) && UserOk(cfg, u) && At(cfg, i).prompts == []
    ensures Scratch(cfg, u, rank).vis(i) == 0
  {
    ScratchSolves(cfg, u, rank, KVis(i));
  }

  lemma ModeReadsOwnItem(cfg: Config, u: User, i: nat, env: Env, e: Key)
    requires e in ModeReads(cfg, u, i, env)
    ensures At(cfg, i).Choice? && (e.i == i || e.i == cfg.modules)
  {
  }

  lemma GraphNotConst(cfg: Config, i: nat)
    requires Sane(cfg) && i < |cfg.items| && InGraph(At(cfg, i))
    ensures !IsConst(At(cfg, i))
  {
    assert SaneItem(cfg, i);
  }

  /** Every value of a bool or tristate symbol rests on its visibility. */
  lemma ValuesNeedVisibility(cfg: Config, u: User, env: Env, c: Cache, k: Key)
    requires Closed(cfg, u, env, c) && Has(c, k)
    requires At(cfg, k.i).Symbol? && IsTriType(At(cfg, k.i).origType) && !At(cfg, k.i).isConstant
    ensures k.KSel? || k.i in c.vis
  {
    var i := k.i;
    if k.KStr? {
      assert KTri(i) in Reads(cfg, u, k, env) && Avail(cfg, u, env, c, KTri(i));
    }
    if k.KStr? || k.KTri? {
      assert KVis(i) in Reads(cfg, u, KTri(i), env) && AllAvail(cfg, u, env, c, Reads(cfg, u, KTri(i), env));
      assert Avail(cfg, u, env, c, KVis(i));
    }
  }

  /** A choice symbol that has a prompt is dropped along with its choice. */
  lemma ChoiceSymbolDropped(cfg: Config, u: User, rank: Key -> nat, i: nat, before: Cache, after: Cache, k: Key)
    requires Acyclic(cfg, rank) && Sane(cfg) && UserOk(cfg, u)
    requires At(cfg, i).Symbol? && IsTriType(At(cfg, i).origType) && At(cfg, i).choice.Some? && At(cfg, i).prompts != []
    requires Coherent(cfg, u, Scratch(cfg, u, rank), before)
    requires Invalidation(cfg, At(cfg, i).choice.value, before, after)
    requires k.i == i && Has(after, k)
    ensures k.KSel?
  {
    var c := At(cfg, i).choice.value;
    assert SaneItem(cfg, i);
    OwnChoiceMentioned(cfg, i);
    assert i in Dependents(cfg, c) && DependentsDropped(cfg, c, after);
    SurvivorsClosed(cfg, u, rank, c, before, after);
    ValuesNeedVisibility(cfg, u, Scratch(cfg, u, rank), after, k);
  }
}
