/**
  What the values of a configuration promise, without the formulas that compute
  them: laws that every environment solving the equations obeys, and so the one
  that the engine answers from.
 */
module KconfigLaws {
  import opened Basics
  import opened KconfigValues
  import opened KconfigScratch

  // ---------------------------------------------------------------- n, m and y

  ghost predicate InRange(env: Env, k: Key) {
    match k
    case KVis(i) => 0 <= env.vis(i) <= 2
    case KTri(i) => 0 <= env.tri(i) <= 2
    case KMode(i) => 0 <= env.mode(i) <= 2
    case _ => true
  }

  /** User values of modes and tristates are n, m or y. */
  predicate Modest(u: User) { forall i :: i in u.tri ==> 0 <= u.tri[i] <= 2 }

  /** All equations hold, with values n, m and y. */
  ghost predicate Solution(cfg: Config, u: User, env: Env) {
    Modest(u) && forall k: Key :: SolvesAt(cfg, u, env, k) && InRange(env, k)
  }

  lemma {:induction false} ExprRange(cfg: Config, e: Expr, env: Env)
    requires forall d :: d in ExprKeys(cfg, e) ==> InRange(env, d)
    ensures 0 <= ExprValue(cfg, e, env) <= 2
  {
    match e {
      case Atom(i) => assert InRange(env, AtomKey(cfg, i));
      case And(l, r) => ExprRange(cfg, l, env); ExprRange(cfg, r, env);
      case Or(l, r) => ExprRange(cfg, l, env); ExprRange(cfg, r, env);
      case Not(x) => ExprRange(cfg, x, env);
      case Rel(_, _, _) =>
    }
  }

  lemma {:induction false} PromptRange(cfg: Config, ps: seq<Expr>, k: nat, env: Env)
    requires forall x, d :: x in ps && d in ExprKeys(cfg, x) ==> InRange(env, d)
    ensures 0 <= PromptVis(cfg, ps, k, env) <= 2
    decreases |ps| - k
  {
    if k < |ps| {
      assert ps[k] in ps;
      ExprRange(cfg, ps[k], env);
      PromptRange(cfg, ps, k + 1, env);
    }
  }

  lemma DefaultRange(cfg: Config, ds: seq<Default>, env: Env)
    requires forall d :: d in DefaultKeys(cfg, ds) ==> InRange(env, d)
    ensures 0 <= DefaultTri(cfg, ds, env) <= 2
  {
    var d := ActiveDefault(cfg, ds, 0, env);
    if d.Some? {
      assert ds[d.value] in ds;
      assert ExprKeys(cfg, ds[d.value].value) <= DefaultKeys(cfg, ds) &&
             ExprKeys(cfg, ds[d.value].cond) <= DefaultKeys(cfg, ds);
      ExprRange(cfg, ds[d.value].value, env);
      ExprRange(cfg, ds[d.value].cond, env);
    }
  }

  /** Recomputation gives n, m and y only. */
  lemma {:induction false} ScratchRange(cfg: Config, u: User, rank: Key -> nat, k: Key)
    requires Acyclic(cfg, rank) && UserOk(cfg, u) && Modest(u)
    ensures InRange(Scratch(cfg, u, rank), k)
    decreases rank(k)
  {
    var env := Scratch(cfg, u, rank);
    var possible := PossibleReads(cfg, k);
    forall d | d in possible ensures InRange(env, d) { ScratchRange(cfg, u, rank, d); }
    ScratchSolves(cfg, u, rank, k);
    hide Scratch, Acyclic;
    match k {
      case KVis(i) => VisRange(cfg, i, env);
      case KTri(i) => TriRange(cfg, u, i, env);
      case KStr(_) =>
      case KSel(_) =>
      case KMode(i) => if At(cfg, i).Choice? { assert KVis(i) in possible && InRange(env, KVis(i)); }
    }
  }

  lemma VisRange(cfg: Config, i: nat, env: Env)
    requires forall d :: d in PossibleReads(cfg, KVis(i)) ==> InRange(env, d)
    ensures 0 <= VisValue(cfg, i, env) <= 2
  {
    var s := At(cfg, i);
    if s.prompts == [] { return; }
    forall x, d | x in s.prompts && d in ExprKeys(cfg, x) ensures InRange(env, d) {
      assert d in PossibleReads(cfg, KVis(i));
    }
    PromptRange(cfg, s.prompts, 0, env);
  }

  lemma TriRange(cfg: Config, u: User, i: nat, env: Env)
    requires Modest(u) && forall d :: d in PossibleReads(cfg, KTri(i)) ==> InRange(env, d)
    ensures 0 <= TriValue(cfg, u, i, env) <= 2
  {
    var s := At(cfg, i);
    var possible := PossibleReads(cfg, KTri(i));
    if s.Symbol? && IsTriType(s.origType) && !s.isConstant && s.choice.None? {
      assert KVis(i) in possible && InRange(env, KVis(i));
      assert DefaultKeys(cfg, s.defaults) <= possible;
      DefaultRange(cfg, s.defaults, env);
      assert ExprKeys(cfg, s.weakRevDep) <= possible && ExprKeys(cfg, s.revDep) <= possible;
      ExprRange(cfg, s.weakRevDep, env);
      ExprRange(cfg, s.revDep, env);
    }
  }

  /** Whatever solves all equations has values n, m and y: it is what recomputation gives. */
  lemma SolvingIsSolution(cfg: Config, u: User, rank: Key -> nat, env: Env)
    requires Acyclic(cfg, rank) && UserOk(cfg, u) && Modest(u)
    requires forall d: Key :: SolvesAt(cfg, u, env, d)
    ensures Solution(cfg, u, env)
  {
    hide Acyclic, SolvesAt, Scratch;
    forall k: Key ensures InRange(env, k) {
      ScratchRange(cfg, u, rank, k);
      ScratchIsUnique(cfg, u, rank, env, k);
    }
  }

  lemma ScratchIsSolution(cfg: Config, u: User, rank: Key -> nat)
    requires Acyclic(cfg, rank) && UserOk(cfg, u) && Modest(u)
    ensures Solution(cfg, u, Scratch(cfg, u, rank))
  {
    hide Acyclic, SolvesAt, Scratch, InRange;
    forall k: Key ensures SolvesAt(cfg, u, Scratch(cfg, u, rank), k) && InRange(Scratch(cfg, u, rank), k) {
      ScratchSolves(cfg, u, rank, k);
      ScratchRange(cfg, u, rank, k);
    }
  }

  // ---------------------------------------------------------------- expressions

  predicate IsMin(v: int, a: int, b: int) { v <= a && v <= b && (v == a || v == b) }

  predicate IsMax(v: int, a: int, b: int) { v >= a && v >= b && (v == a || v == b) }

  ghost predicate Ranged(env: Env) { forall k: Key :: InRange(env, k) }

  lemma ValueRange(cfg: Config, e: Expr, env: Env)
    requires Ranged(env)
    ensures 0 <= ExprValue(cfg, e, env) <= 2
  {
    ExprRange(cfg, e, env);
  }

  /** `&&` is the lesser value, `||` the greater one, `!` the complement, in spite of the short-circuits. */
  lemma ExprLaws(cfg: Config, l: Expr, r: Expr, env: Env)
    requires Ranged(env)
    ensures IsMin(ExprValue(cfg, And(l, r), env), ExprValue(cfg, l, env), ExprValue(cfg, r, env))
    ensures IsMax(ExprValue(cfg, Or(l, r), env), ExprValue(cfg, l, env), ExprValue(cfg, r, env))
    ensures ExprValue(cfg, Not(l), env) + ExprValue(cfg, l, env) == 2
    ensures l.Atom? ==> ExprValue(cfg, l, env) == if At(cfg, l.item).Choice? then env.mode(l.item) else env.tri(l.item)
  {
    ValueRange(cfg, l, env);
    ValueRange(cfg, r, env);
  }

  /** `s` comes before `t` in a dictionary. */
  ghost predicate Before(s: string, t: string) {
    exists k: nat :: k <= |s| && k < |t| && s[..k] == t[..k] && (k == |s| || s[k] < t[k])
  }

  lemma BeforeStep(s: string, t: string)
    requires s != "" && t != ""
    ensures Before(s, t) <==> s[0] < t[0] || (s[0] == t[0] && Before(s[1..], t[1..]))
  {
    if s[0] < t[0] { assert s[..0] == t[..0]; }
    if s[0] == t[0] && Before(s[1..], t[1..]) {
      var k: nat :| && k <= |s[1..]| && k < |t[1..]| && s[1..][..k] == t[1..][..k]
                    && (k == |s[1..]| || s[1..][k] < t[1..][k]);
      assert s[..k + 1] == [s[0]] + s[1..][..k] && t[..k + 1] == [t[0]] + t[1..][..k];
      assert s[..k + 1] == t[..k + 1];
    }
    if Before(s, t) {
      var k: nat :| k <= |s| && k < |t| && s[..k] == t[..k] && (k == |s| || s[k] < t[k]);
      if k > 0 {
        assert s[0] == s[..k][0] == t[..k][0] == t[0];
        assert s[1..][..k - 1] == s[..k][1..] == t[..k][1..] == t[1..][..k - 1];
      }
    }
  }

  lemma {:induction false} TextsCompare(s: string, t: string)
    ensures StrCmp(s, t) == 0 <==> s == t
    ensures StrCmp(s, t) < 0 <==> Before(s, t)
    ensures StrCmp(s, t) > 0 <==> Before(t, s)
    decreases |s|
  {
    if s == "" || t == "" {
      if s == "" && t != "" { assert s[..0] == t[..0]; }
      if t == "" && s != "" { assert s[..0] == t[..0]; }
    } else {
      TextsCompare(s[1..], t[1..]);
      BeforeStep(s, t);
      BeforeStep(t, s);
      assert s == [s[0]] + s[1..] && t == [t[0]] + t[1..];
    }
  }

  /** The number that a symbol stands for in a comparison. */
  predicate StandsFor(cfg: Config, env: Env, a: nat, n: int) {
    var s := At(cfg, a);
    if s.origType == Bool || s.origType == Tristate then n == env.tri(a)
    else cfg.parse(s.origType, env.str(a)) == Some(n)
  }

  predicate Ordered(op: RelOp, m: int, n: int) {
    match op
    case Equal => m == n
    case Unequal => m != n
    case Less => m < n
    case LessEqual => m <= n
    case Greater => n < m
    case GreaterEqual => n <= m
  }

  ghost predicate OrderedText(op: RelOp, s: string, t: string) {
    match op
    case Equal => s == t
    case Unequal => s != t
    case Less => Before(s, t)
    case LessEqual => s == t || Before(s, t)
    case Greater => Before(t, s)
    case GreaterEqual => s == t || Before(t, s)
  }

  /** A relation is y or n: on numbers if both sides are, unless both are strings; else on the texts. */
  lemma RelationLaws(cfg: Config, op: RelOp, a: nat, b: nat, env: Env)
    ensures ExprValue(cfg, Rel(op, a, b), env) == 0 || ExprValue(cfg, Rel(op, a, b), env) == 2
    ensures forall m, n ::
              StandsFor(cfg, env, a, m) && StandsFor(cfg, env, b, n)
              && !(At(cfg, a).origType == Str && At(cfg, b).origType == Str) ==>
                (ExprValue(cfg, Rel(op, a, b), env) == 2 <==> Ordered(op, m, n))
    ensures (At(cfg, a).origType == Str && At(cfg, b).origType == Str)
            || (forall n :: !StandsFor(cfg, env, a, n)) || (forall n :: !StandsFor(cfg, env, b, n)) ==>
              (ExprValue(cfg, Rel(op, a, b), env) == 2 <==> OrderedText(op, env.str(a), env.str(b)))
  {
    TextsCompare(env.str(a), env.str(b));
    var m, n := NumOf(cfg, a, env), NumOf(cfg, b, env);
    assert m.Some? ==> StandsFor(cfg, env, a, m.value);
    assert n.Some? ==> StandsFor(cfg, env, b, n.value);
  }

  // ---------------------------------------------------------------- visibility

  ghost predicate SomeIs(cfg: Config, ps: seq<Expr>, env: Env, v: int) {
    exists x :: x in ps && ExprValue(cfg, x, env) == v
  }

  /** The prompt maximum is reached, and nothing exceeds it. */
  lemma {:induction false} PromptMaximum(cfg: Config, ps: seq<Expr>, k: nat, env: Env)
    requires Ranged(env) && k <= |ps|
    ensures var v := PromptVis(cfg, ps, k, env);
            && 0 <= v <= 2 && (v > 0 ==> SomeIs(cfg, ps[k..], env, v))
            && forall x :: x in ps[k..] ==> ExprValue(cfg, x, env) <= v
    decreases |ps| - k
  {
    if k < |ps| {
      PromptMaximum(cfg, ps, k + 1, env);
      ValueRange(cfg, ps[k], env);
      assert ps[k..] == [ps[k]] + ps[k + 1..];
    }
  }

  /** Tristates can be m: they are tristates, and MODULES is not n. */
  predicate CanBeM(cfg: Config, s: Item, env: Env) { s.origType == Tristate && env.tri(cfg.modules) != 0 }

  /**
    The symbol is closed off by the mode of its choice: a bool outside y mode of a
    tristate choice, or a tristate whose prompts reach m only, in y mode.
   */
  ghost predicate ClosedOff(cfg: Config, s: Item, env: Env) {
    && s.Symbol? && s.choice.Some?
    && (|| (At(cfg, s.choice.value).origType == Tristate && s.origType != Tristate && env.mode(s.choice.value) != 2)
        || (s.origType == Tristate && env.mode(s.choice.value) == 2 && !SomeIs(cfg, s.prompts, env, 2)))
  }

  /** An item is as visible as its strongest prompt, and m visibility is for what can be m. */
  lemma VisibilityLaw(cfg: Config, u: User, env: Env, i: nat)
    requires Solution(cfg, u, env)
    ensures var s := At(cfg, i); var ps := s.prompts;
            && (env.vis(i) != 0 <==> !ClosedOff(cfg, s, env) && (SomeIs(cfg, ps, env, 1) || SomeIs(cfg, ps, env, 2)))
            && (env.vis(i) == 2 ==>
                  SomeIs(cfg, ps, env, 2) || (SomeIs(cfg, ps, env, 1) && !CanBeM(cfg, s, env)))
            && (env.vis(i) == 1 ==> CanBeM(cfg, s, env) && !SomeIs(cfg, ps, env, 2))
  {
    assert SolvesAt(cfg, u, env, KVis(i)) && InRange(env, KVis(i));
    forall k: Key ensures InRange(env, k) { assert SolvesAt(cfg, u, env, k); }
    var s := At(cfg, i);
    PromptMaximum(cfg, s.prompts, 0, env);
    assert s.prompts[0..] == s.prompts;
  }

  // ---------------------------------------------------------------- tristate values

  /** The default in force: the first one whose condition is not n. */
  ghost predicate InForce(cfg: Config, ds: seq<Default>, env: Env, k: nat) {
    && k < |ds| && ExprValue(cfg, ds[k].cond, env) != 0
    && forall j :: 0 <= j < k ==> ExprValue(cfg, ds[j].cond, env) == 0
  }

  lemma {:induction false} ActiveIsInForce(cfg: Config, ds: seq<Default>, k: nat, env: Env)
    requires forall j :: 0 <= j < k && j < |ds| ==> ExprValue(cfg, ds[j].cond, env) == 0
    ensures var d := ActiveDefault(cfg, ds, k, env);
            (d.Some? ==> InForce(cfg, ds, env, d.value))
            && (d.None? ==> forall j :: 0 <= j < |ds| ==> ExprValue(cfg, ds[j].cond, env) == 0)
    decreases |ds| - k
  {
    if k < |ds| && ExprValue(cfg, ds[k].cond, env) == 0 { ActiveIsInForce(cfg, ds, k + 1, env); }
  }

  lemma InForceIsActive(cfg: Config, ds: seq<Default>, env: Env)
    ensures forall k: nat :: InForce(cfg, ds, env, k) <==> ActiveDefault(cfg, ds, 0, env) == Some(k)
  {
    ActiveIsInForce(cfg, ds, 0, env);
  }

  ghost predicate IsPlain(cfg: Config, i: nat) {
    var s := At(cfg, i);
    s.Symbol? && (s.origType == Bool || s.origType == Tristate) && !s.isConstant && s.choice.None?
  }

  ghost predicate UserCounts(u: User, env: Env, i: nat) { env.vis(i) != 0 && i in u.tri }

  /**
    What pulls up the value of a plain symbol: whoever selects it; the user, up to
    the visibility; and without the user, whoever implies it while its own
    dependencies are met, and the default in force, up to its condition.
   */
  ghost predicate Contributes(cfg: Config, u: User, env: Env, i: nat, x: int)
    requires At(cfg, i).Symbol?
  {
    var s := At(cfg, i);
    || x == ExprValue(cfg, s.revDep, env)
    || (UserCounts(u, env, i) && IsMin(x, u.tri[i], env.vis(i)))
    || (&& !UserCounts(u, env, i)
        && (|| (x == ExprValue(cfg, s.weakRevDep, env) && ExprValue(cfg, s.directDep, env) != 0)
            || FromDefault(cfg, env, s.defaults, x)))
  }

  ghost predicate FromDefault(cfg: Config, env: Env, ds: seq<Default>, x: int) {
    exists k: nat ::
      InForce(cfg, ds, env, k) && IsMin(x, ExprValue(cfg, ds[k].value, env), ExprValue(cfg, ds[k].cond, env))
  }

  /** The strongest of what pulls up the value. */
  ghost predicate Strongest(cfg: Config, u: User, env: Env, i: nat, v: int)
    requires At(cfg, i).Symbol?
  {
    Contributes(cfg, u, env, i, v) && forall x :: Contributes(cfg, u, env, i, x) ==> x <= v
  }

  /** m becomes y for what cannot be m, and for what y implies. */
  ghost predicate MBecomesY(cfg: Config, env: Env, i: nat)
    requires At(cfg, i).Symbol?
  {
    !CanBeM(cfg, At(cfg, i), env) || ExprValue(cfg, At(cfg, i).weakRevDep, env) == 2
  }

  /** A plain symbol has the strongest value that anything pulls it up to. */
  lemma PlainLaw(cfg: Config, u: User, env: Env, i: nat)
    requires Solution(cfg, u, env) && IsPlain(cfg, i)
    ensures exists v :: Strongest(cfg, u, env, i, v)
    ensures forall v :: Strongest(cfg, u, env, i, v) ==>
              env.tri(i) == if v == 1 && MBecomesY(cfg, env, i) then 2 else v
  {
    assert SolvesAt(cfg, u, env, KTri(i));
    forall k: Key ensures InRange(env, k) { assert SolvesAt(cfg, u, env, k); }
    var s := At(cfg, i);
    InForceIsActive(cfg, s.defaults, env);
    ValueRange(cfg, s.revDep, env);
    ValueRange(cfg, s.weakRevDep, env);
    ContributesTop(cfg, u, env, i, SelectedTri(cfg, u, i, env));
  }

  lemma ContributesTop(cfg: Config, u: User, env: Env, i: nat, v: int)
    requires At(cfg, i).Symbol? && v == SelectedTri(cfg, u, i, env) && Ranged(env) && Modest(u)
    ensures Strongest(cfg, u, env, i, v)
  {
    var s := At(cfg, i);
    InForceIsActive(cfg, s.defaults, env);
    ValueRange(cfg, s.revDep, env);
    ValueRange(cfg, s.weakRevDep, env);
    var d := ActiveDefault(cfg, s.defaults, 0, env);
    if d.Some? {
      ValueRange(cfg, s.defaults[d.value].value, env);
      ValueRange(cfg, s.defaults[d.value].cond, env);
      assert InForce(cfg, s.defaults, env, d.value);
      assert FromDefault(cfg, env, s.defaults, DefaultTri(cfg, s.defaults, env));
    }
    forall x | FromDefault(cfg, env, s.defaults, x) ensures x == DefaultTri(cfg, s.defaults, env) {
      var k: nat :| InForce(cfg, s.defaults, env, k)
                    && IsMin(x, ExprValue(cfg, s.defaults[k].value, env), ExprValue(cfg, s.defaults[k].cond, env));
      assert d == Some(k);
    }
    assert InRange(env, KVis(i));
  }

  /** `select` is a floor, whatever else is set; `imply` is one where the user is silent and dependencies are met. */
  lemma SelectAndImply(cfg: Config, u: User, env: Env, i: nat)
    requires Solution(cfg, u, env) && IsPlain(cfg, i)
    ensures env.tri(i) >= ExprValue(cfg, At(cfg, i).revDep, env)
    ensures !UserCounts(u, env, i) && ExprValue(cfg, At(cfg, i).directDep, env) != 0 ==>
              env.tri(i) >= ExprValue(cfg, At(cfg, i).weakRevDep, env)
  {
    hide Solution, Contributes;
    PlainLaw(cfg, u, env, i);
    var v :| Strongest(cfg, u, env, i, v);
    FloorsContribute(cfg, u, env, i);
  }

  lemma FloorsContribute(cfg: Config, u: User, env: Env, i: nat)
    requires At(cfg, i).Symbol?
    ensures Contributes(cfg, u, env, i, ExprValue(cfg, At(cfg, i).revDep, env))
    ensures !UserCounts(u, env, i) && ExprValue(cfg, At(cfg, i).directDep, env) != 0 ==>
              Contributes(cfg, u, env, i, ExprValue(cfg, At(cfg, i).weakRevDep, env))
  {
  }

  /** Unselected, the user's value holds up to the visibility; with no user, default or imply, the symbol is n. */
  lemma UserAndNothing(cfg: Config, u: User, env: Env, i: nat)
    requires Solution(cfg, u, env) && IsPlain(cfg, i) && ExprValue(cfg, At(cfg, i).revDep, env) == 0
    ensures UserCounts(u, env, i) ==>
              IsMin(env.tri(i), u.tri[i], env.vis(i))
              || (env.tri(i) == 2 && IsMin(1, u.tri[i], env.vis(i)) && MBecomesY(cfg, env, i))
    ensures !UserCounts(u, env, i) && At(cfg, i).defaults == []
            && (ExprValue(cfg, At(cfg, i).weakRevDep, env) == 0 || ExprValue(cfg, At(cfg, i).directDep, env) == 0) ==>
              env.tri(i) == 0
  {
    hide Solution;
    PlainLaw(cfg, u, env, i);
    var v :| Strongest(cfg, u, env, i, v);
    SolutionAt(cfg, u, env, KVis(i));
    if UserCounts(u, env, i) { assert Contributes(cfg, u, env, i, Min(u.tri[i], env.vis(i))); }
  }

  lemma SolutionAt(cfg: Config, u: User, env: Env, k: Key)
    requires Solution(cfg, u, env)
    ensures SolvesAt(cfg, u, env, k) && InRange(env, k) && Modest(u)
  {
  }

  /** Only what can be m is ever m; constants have the value of their name; texts and numbers are n. */
  lemma WhatIsM(cfg: Config, u: User, env: Env, i: nat)
    requires Solution(cfg, u, env)
    ensures At(cfg, i).Symbol? && !At(cfg, i).isConstant && At(cfg, i).choice.None? && env.tri(i) == 1 ==>
              CanBeM(cfg, At(cfg, i), env)
    ensures At(cfg, i).Symbol? && At(cfg, i).isConstant && At(cfg, i).origType == Tristate ==>
              env.tri(i) == (if At(cfg, i).name == "y" then 2 else if At(cfg, i).name == "m" then 1 else 0)
    ensures At(cfg, i).origType != Bool && At(cfg, i).origType != Tristate ==> env.tri(i) == 0
  {
    SolutionAt(cfg, u, env, KTri(i));
  }

  // ---------------------------------------------------------------- choices

  ghost predicate IsMember(cfg: Config, i: nat, c: nat) {
    var s := At(cfg, i);
    s.Symbol? && (s.origType == Bool || s.origType == Tristate) && !s.isConstant && s.choice == Some(c)
  }

  /** A member of a choice is y if it is selected, and m if m is all it can be and the user wants it. */
  lemma MemberLaw(cfg: Config, u: User, env: Env, i: nat, c: nat)
    requires Solution(cfg, u, env) && IsMember(cfg, i, c)
    ensures env.tri(i) == 2 <==> env.vis(i) == 2 && env.sel(c) == Some(i)
    ensures env.tri(i) == 1 <==> env.vis(i) == 1 && i in u.tri && u.tri[i] != 0
  {
    SolutionAt(cfg, u, env, KTri(i));
    SolutionAt(cfg, u, env, KVis(i));
  }

  /** No two members of a choice are y. */
  lemma OneIsY(cfg: Config, u: User, env: Env, i: nat, j: nat, c: nat)
    requires Solution(cfg, u, env) && IsMember(cfg, i, c) && IsMember(cfg, j, c)
    requires env.tri(i) == 2 && env.tri(j) == 2
    ensures i == j
  {
    hide Solution;
    MemberLaw(cfg, u, env, i, c);
    MemberLaw(cfg, u, env, j, c);
  }

  /** The mode: n without visibility and by choice of the user where that is optional, y or m otherwise. */
  lemma ModeLaw(cfg: Config, u: User, env: Env, c: nat)
    requires Solution(cfg, u, env) && At(cfg, c).Choice?
    ensures env.mode(c) == 0 <==> env.vis(c) == 0 || (At(cfg, c).isOptional && (c !in u.tri || u.tri[c] == 0))
    ensures env.mode(c) != 0 && (At(cfg, c).origType == Bool || At(cfg, c).origType == Tristate) ==>
              (env.mode(c) == 1 <==>
                 CanBeM(cfg, At(cfg, c), env) && !(env.vis(c) == 2 && c in u.tri && u.tri[c] == 2))
  {
    SolutionAt(cfg, u, env, KMode(c));
    SolutionAt(cfg, u, env, KVis(c));
  }

  /** Default `k` of a choice names a symbol, applies, and its symbol is visible. */
  ghost predicate Offers(cfg: Config, ds: seq<Default>, env: Env, k: nat) {
    && k < |ds| && ds[k].value.Atom? && ExprValue(cfg, ds[k].cond, env) != 0 && env.vis(ds[k].value.item) != 0
  }

  ghost predicate FirstOffer(cfg: Config, ds: seq<Default>, env: Env, k: nat) {
    Offers(cfg, ds, env, k) && forall j: nat :: j < k ==> !Offers(cfg, ds, env, j)
  }

  lemma {:induction false} DefaultsOffer(cfg: Config, ds: seq<Default>, k: nat, env: Env)
    requires forall j: nat :: j < k ==> !Offers(cfg, ds, env, j)
    ensures var x := FromDefaults(cfg, ds, k, env);
            && (x.Some? <==> exists j: nat :: FirstOffer(cfg, ds, env, j))
            && (forall j: nat :: FirstOffer(cfg, ds, env, j) ==> x == Some(ds[j].value.item))
            && (x.None? ==> forall j: nat :: !Offers(cfg, ds, env, j))
    decreases |ds| - k
  {
    if k < |ds| {
      if Offers(cfg, ds, env, k) {
        assert FirstOffer(cfg, ds, env, k);
        forall j: nat | FirstOffer(cfg, ds, env, j) ensures j == k { }
      } else {
        DefaultsOffer(cfg, ds, k + 1, env);
      }
    }
  }

  ghost predicate FirstShown(syms: seq<nat>, env: Env, k: nat) {
    k < |syms| && env.vis(syms[k]) != 0 && forall j :: 0 <= j < k ==> env.vis(syms[j]) == 0
  }

  lemma {:induction false} MembersShown(syms: seq<nat>, k: nat, env: Env)
    requires forall j :: 0 <= j < k && j < |syms| ==> env.vis(syms[j]) == 0
    ensures var x := FirstVisible(syms, k, env);
            && (forall j: nat :: FirstShown(syms, env, j) ==> x == Some(syms[j]))
            && (x.None? ==> forall y :: y in syms ==> env.vis(y) == 0)
            && (x.Some? ==> x.value in syms && env.vis(x.value) != 0)
    decreases |syms| - k
  {
    if k < |syms| {
      if env.vis(syms[k]) == 0 {
        MembersShown(syms, k + 1, env);
      } else {
        forall j: nat | FirstShown(syms, env, j) ensures j == k { }
      }
    }
  }

  /** In y mode, and only there, something is selected if anything is visible: a visible member. */
  lemma SelectionLaw(cfg: Config, u: User, env: Env, c: nat)
    requires Solution(cfg, u, env) && Sane(cfg) && UserOk(cfg, u) && At(cfg, c).Choice?
    ensures env.sel(c).Some? <==> env.mode(c) == 2 && exists x :: x in At(cfg, c).syms && env.vis(x) != 0
    ensures env.sel(c).Some? ==> env.sel(c).value in At(cfg, c).syms && env.vis(env.sel(c).value) != 0
  {
    SolutionAt(cfg, u, env, KSel(c));
    assert c < |cfg.items| && SaneItem(cfg, c);
    DefaultsOffer(cfg, At(cfg, c).choiceDefaults, 0, env);
    MembersShown(At(cfg, c).syms, 0, env);
  }

  /** The user's symbol first, then the first default that offers one, then the first visible member. */
  lemma SelectionOrder(cfg: Config, u: User, env: Env, c: nat)
    requires Solution(cfg, u, env) && At(cfg, c).Choice? && env.mode(c) == 2
    ensures c in u.sel && env.vis(u.sel[c]) != 0 ==> env.sel(c) == Some(u.sel[c])
    ensures c !in u.sel || env.vis(u.sel[c]) == 0 ==>
              forall k: nat :: FirstOffer(cfg, At(cfg, c).choiceDefaults, env, k) ==>
                env.sel(c) == Some(At(cfg, c).choiceDefaults[k].value.item)
    ensures (c !in u.sel || env.vis(u.sel[c]) == 0)
            && (forall k: nat :: !Offers(cfg, At(cfg, c).choiceDefaults, env, k)) ==>
              forall k: nat :: FirstShown(At(cfg, c).syms, env, k) ==> env.sel(c) == Some(At(cfg, c).syms[k])
  {
    SolutionAt(cfg, u, env, KSel(c));
    DefaultsOffer(cfg, At(cfg, c).choiceDefaults, 0, env);
    MembersShown(At(cfg, c).syms, 0, env);
  }

  // ---------------------------------------------------------------- texts and numbers


  /** `t` is what the defaults say: the text of the one in force if that is a single symbol, else nothing. */
  ghost predicate DefaultSays(cfg: Config, env: Env, ds: seq<Default>, t: string) {
    && (forall k: nat :: InForce(cfg, ds, env, k) ==>
          if ds[k].value.Atom? then t == env.str(ds[k].value.item) else t == "")
    && ((forall k: nat :: !InForce(cfg, ds, env, k)) ==> t == "")
  }

  lemma DefaultTextSays(cfg: Config, env: Env, ds: seq<Default>)
    ensures DefaultSays(cfg, env, ds, DefaultText(cfg, ds, env))
    ensures forall t :: DefaultSays(cfg, env, ds, t) ==> t == DefaultText(cfg, ds, env)
  {
    InForceIsActive(cfg, ds, env);
    var d := ActiveDefault(cfg, ds, 0, env);
    if d.Some? { assert InForce(cfg, ds, env, d.value); }
  }

  /** Tristates read n, m or y; a string is the user's while it is visible, else what the defaults say. */
  lemma TextLaw(cfg: Config, u: User, env: Env, i: nat)
    requires Solution(cfg, u, env) && At(cfg, i).Symbol?
    ensures At(cfg, i).origType == Bool || At(cfg, i).origType == Tristate ==>
              env.str(i) == (if env.tri(i) == 0 then "n" else if env.tri(i) == 1 then "m" else "y")
    ensures At(cfg, i).origType == Unknown ==> env.str(i) == At(cfg, i).name
    ensures At(cfg, i).origType == Str ==>
              if env.vis(i) != 0 && i in u.text then env.str(i) == u.text[i]
              else DefaultSays(cfg, env, At(cfg, i).defaults, env.str(i))
  {
    SolutionAt(cfg, u, env, KStr(i));
    SolutionAt(cfg, u, env, KTri(i));
    DefaultTextSays(cfg, env, At(cfg, i).defaults);
  }

  ghost predicate RangeInForce(cfg: Config, rs: seq<Range>, env: Env, k: nat) {
    && k < |rs| && ExprValue(cfg, rs[k].cond, env) != 0
    && forall j :: 0 <= j < k ==> ExprValue(cfg, rs[j].cond, env) == 0
  }

  lemma {:induction false} ActiveRangeIsInForce(cfg: Config, rs: seq<Range>, k: nat, env: Env)
    requires forall j :: 0 <= j < k && j < |rs| ==> ExprValue(cfg, rs[j].cond, env) == 0
    ensures forall j: nat :: RangeInForce(cfg, rs, env, j) <==> ActiveRange(cfg, rs, k, env) == Some(j)
    decreases |rs| - k
  {
    if k < |rs| && ExprValue(cfg, rs[k].cond, env) == 0 {
      ActiveRangeIsInForce(cfg, rs, k + 1, env);
    } else if k < |rs| {
      assert RangeInForce(cfg, rs, env, k);
    }
  }

  /** `n` is the number that the text of a number symbol denotes; a text that is none counts as zero. */
  predicate Denotes(cfg: Config, t: Type, s: string, n: int) {
    cfg.parse(t, s) == Some(n) || (cfg.parse(t, s).None? && n == 0)
  }

  /** `n` respects the range in force. */
  ghost predicate Respects(cfg: Config, env: Env, s: Item, n: int)
    requires s.Symbol?
  {
    forall k: nat, low, high ::
      (RangeInForce(cfg, s.ranges, env, k)
       && Denotes(cfg, s.origType, env.str(s.ranges[k].low), low)
       && Denotes(cfg, s.origType, env.str(s.ranges[k].high), high)) ==>
        low <= n <= high
  }

  ghost predicate IsNumeric(cfg: Config, i: nat) {
    At(cfg, i).Symbol? && (At(cfg, i).origType == Int || At(cfg, i).origType == Hex)
  }

  ghost predicate UserNumber(cfg: Config, u: User, env: Env, i: nat)
    requires At(cfg, i).Symbol?
  {
    && env.vis(i) != 0 && i in u.text && u.text[i] != ""
    && forall n :: Denotes(cfg, At(cfg, i).origType, u.text[i], n) ==> Respects(cfg, env, At(cfg, i), n)
  }

  /** What the bounds are. */
  lemma BoundsAre(cfg: Config, env: Env, s: Item, n: int)
    requires s.Symbol?
    ensures InBounds(n, BoundsOf(cfg, s, env)) <==> Respects(cfg, env, s, n)
  {
    ActiveRangeIsInForce(cfg, s.ranges, 0, env);
    var r := ActiveRange(cfg, s.ranges, 0, env);
    if r.Some? {
      var low, high := env.str(s.ranges[r.value].low), env.str(s.ranges[r.value].high);
      assert RangeInForce(cfg, s.ranges, env, r.value);
      assert Denotes(cfg, s.origType, low, Number(cfg, s.origType, low));
      assert Denotes(cfg, s.origType, high, Number(cfg, s.origType, high));
    }
  }

  /** The user's number holds while it is visible and respects the range; else the default does, if it respects it. */
  lemma NumberLaw(cfg: Config, u: User, env: Env, i: nat)
    requires Solution(cfg, u, env) && IsNumeric(cfg, i)
    ensures UserNumber(cfg, u, env, i) ==> env.str(i) == u.text[i]
    ensures !UserNumber(cfg, u, env, i) ==>
              forall t, n ::
                (DefaultSays(cfg, env, At(cfg, i).defaults, t) && Denotes(cfg, At(cfg, i).origType, t, n)
                 && Respects(cfg, env, At(cfg, i), n)) ==>
                  env.str(i) == t
  {
    SolutionAt(cfg, u, env, KStr(i));
    var s := At(cfg, i);
    DefaultTextSays(cfg, env, s.defaults);
    if i in u.text { UserNumberIs(cfg, u, env, i); }
    BoundsAre(cfg, env, s, Number(cfg, s.origType, DefaultText(cfg, s.defaults, env)));
  }

  /** A default outside the range in force becomes the bound it violates, in standard form. */
  lemma ClampLaw(cfg: Config, u: User, env: Env, i: nat, t: string, n: int, k: nat, low: int, high: int)
    requires Solution(cfg, u, env) && IsNumeric(cfg, i) && !UserNumber(cfg, u, env, i)
    requires DefaultSays(cfg, env, At(cfg, i).defaults, t) && Denotes(cfg, At(cfg, i).origType, t, n)
    requires RangeInForce(cfg, At(cfg, i).ranges, env, k)
    requires Denotes(cfg, At(cfg, i).origType, env.str(At(cfg, i).ranges[k].low), low)
    requires Denotes(cfg, At(cfg, i).origType, env.str(At(cfg, i).ranges[k].high), high)
    ensures n < low ==> env.str(i) == cfg.format(At(cfg, i).origType, low)
    ensures low <= n && high < n ==> env.str(i) == cfg.format(At(cfg, i).origType, high)
  {
    SolutionAt(cfg, u, env, KStr(i));
    var s := At(cfg, i);
    DefaultTextSays(cfg, env, s.defaults);
    ActiveRangeIsInForce(cfg, s.ranges, 0, env);
    if i in u.text { UserNumberIs(cfg, u, env, i); }
  }

  lemma UserNumberIs(cfg: Config, u: User, env: Env, i: nat)
    requires IsNumeric(cfg, i) && i in u.text
    ensures UserNumber(cfg, u, env, i) <==> UserNumberCounts(cfg, u, i, BoundsOf(cfg, At(cfg, i), env), env)
  {
    hide Respects, BoundsOf, InBounds;
    var s := At(cfg, i);
    var n := Number(cfg, s.origType, u.text[i]);
    assert Denotes(cfg, s.origType, u.text[i], n);
    BoundsAre(cfg, env, s, n);
  }

  /** A number symbol always respects its range, if that is not empty and numbers read back as written. */
  lemma NumbersAreClamped(cfg: Config, u: User, env: Env, i: nat, n: int)
    requires Solution(cfg, u, env) && IsNumeric(cfg, i) && Denotes(cfg, At(cfg, i).origType, env.str(i), n)
    requires forall x: int :: cfg.parse(At(cfg, i).origType, cfg.format(At(cfg, i).origType, x)) == Some(x)
    requires exists x :: Respects(cfg, env, At(cfg, i), x)
    ensures Respects(cfg, env, At(cfg, i), n)
  {
    SolutionAt(cfg, u, env, KStr(i));
    var s := At(cfg, i);
    var x :| Respects(cfg, env, s, x);
    BoundsAre(cfg, env, s, x);
    BoundsAre(cfg, env, s, n);
  }
}
