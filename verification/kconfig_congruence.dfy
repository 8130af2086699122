/**
  Congruence of the value formulas: an attribute is determined by the attributes
  that its evaluation looked at, and so is the set it looked at.
 */
module KconfigCongruence {
  import opened Basics
  import opened KconfigValues

  ghost predicate SameAt(p: Env, q: Env, k: Key) {
    match k
    case KVis(i) => p.vis(i) == q.vis(i)
    case KTri(i) => p.tri(i) == q.tri(i)
    case KStr(i) => p.str(i) == q.str(i)
    case KSel(i) => p.sel(i) == q.sel(i)
    case KMode(i) => p.mode(i) == q.mode(i)
  }

  ghost predicate Agree(p: Env, q: Env, ks: set<Key>) {
    forall k :: k in ks ==> SameAt(p, q, k)
  }

  /** The formula of attribute `k` gives the same value in both environments. */
  ghost predicate SameFormula(cfg: Config, u: User, k: Key, p: Env, q: Env) {
    match k
    case KVis(i) => VisValue(cfg, i, p) == VisValue(cfg, i, q)
    case KTri(i) => TriValue(cfg, u, i, p) == TriValue(cfg, u, i, q)
    case KStr(i) => StrValue(cfg, u, i, p) == StrValue(cfg, u, i, q)
    case KSel(i) => SelValue(cfg, u, i, p) == SelValue(cfg, u, i, q)
    case KMode(i) => ModeValue(cfg, u, i, p) == ModeValue(cfg, u, i, q)
  }

  lemma CompareCongruent(cfg: Config, a: nat, b: nat, p: Env, q: Env)
    requires Agree(p, q, CompareReads(cfg, a, b, p))
    ensures Compare(cfg, a, b, p) == Compare(cfg, a, b, q)
    ensures CompareReads(cfg, a, b, p) == CompareReads(cfg, a, b, q)
  {
  }

  lemma {:induction false} ExprCongruent(cfg: Config, e: Expr, p: Env, q: Env)
    requires Agree(p, q, ExprReads(cfg, e, p))
    ensures ExprValue(cfg, e, p) == ExprValue(cfg, e, q)
    ensures ExprReads(cfg, e, p) == ExprReads(cfg, e, q)
  {
    match e {
      case Atom(i) => assert SameAt(p, q, AtomKey(cfg, i));
      case And(l, r) =>
        ExprCongruent(cfg, l, p, q);
        if ExprValue(cfg, l, p) != 0 { ExprCongruent(cfg, r, p, q); }
      case Or(l, r) =>
        ExprCongruent(cfg, l, p, q);
        if ExprValue(cfg, l, p) != 2 { ExprCongruent(cfg, r, p, q); }
      case Not(x) => ExprCongruent(cfg, x, p, q);
      case Rel(_, a, b) => CompareCongruent(cfg, a, b, p, q);
    }
  }

  lemma {:induction false} PromptCongruent(cfg: Config, ps: seq<Expr>, k: nat, p: Env, q: Env)
    requires Agree(p, q, PromptReads(cfg, ps, k, p))
    ensures PromptVis(cfg, ps, k, p) == PromptVis(cfg, ps, k, q)
    ensures PromptReads(cfg, ps, k, p) == PromptReads(cfg, ps, k, q)
    decreases |ps| - k
  {
    if k < |ps| {
      ExprCongruent(cfg, ps[k], p, q);
      PromptCongruent(cfg, ps, k + 1, p, q);
    }
  }

  lemma TypeCongruent(cfg: Config, s: Item, p: Env, q: Env)
    requires Agree(p, q, TypeReads(cfg, s, p))
    ensures EffectiveType(cfg, s, p) == EffectiveType(cfg, s, q)
    ensures TypeReads(cfg, s, p) == TypeReads(cfg, s, q)
  {
  }

  lemma NoPromptsNoVisibility(cfg: Config, i: nat, p: Env)
    requires At(cfg, i).prompts == []
    ensures VisValue(cfg, i, p) == 0
  {
  }

  lemma VisCongruent(cfg: Config, i: nat, p: Env, q: Env)
    requires Agree(p, q, VisReads(cfg, i, p))
    ensures VisValue(cfg, i, p) == VisValue(cfg, i, q)
    ensures VisReads(cfg, i, p) == VisReads(cfg, i, q)
  {
    var s := At(cfg, i);
    if s.prompts == [] {
      NoPromptsNoVisibility(cfg, i, p);
      NoPromptsNoVisibility(cfg, i, q);
    } else {
      PromptCongruent(cfg, s.prompts, 0, p, q);
      var v := PromptVis(cfg, s.prompts, 0, p);
      if AsksMode(cfg, s, v) {
        assert KMode(s.choice.value) in VisReads(cfg, i, p);
        assert SameAt(p, q, KMode(s.choice.value));
      }
      assert HiddenByMode(cfg, s, v, p) == HiddenByMode(cfg, s, v, q);
      if v == 1 && !HiddenByMode(cfg, s, v, p) { TypeCongruent(cfg, s, p, q); }
    }
  }

  lemma {:induction false} CondCongruent(cfg: Config, ds: seq<Default>, k: nat, p: Env, q: Env)
    requires Agree(p, q, CondReads(cfg, ds, k, p))
    ensures ActiveDefault(cfg, ds, k, p) == ActiveDefault(cfg, ds, k, q)
    ensures CondReads(cfg, ds, k, p) == CondReads(cfg, ds, k, q)
    ensures var d := ActiveDefault(cfg, ds, k, p);
            d.Some? ==> ExprValue(cfg, ds[d.value].cond, p) == ExprValue(cfg, ds[d.value].cond, q)
    decreases |ds| - k
  {
    if k < |ds| {
      ExprCongruent(cfg, ds[k].cond, p, q);
      if ExprValue(cfg, ds[k].cond, p) == 0 { CondCongruent(cfg, ds, k + 1, p, q); }
    }
  }

  lemma ImpliedCongruent(cfg: Config, s: Item, p: Env, q: Env)
    requires s.Symbol? && Agree(p, q, ImpliedReads(cfg, s, p))
    ensures ImpliedTri(cfg, s, p) == ImpliedTri(cfg, s, q)
    ensures ImpliedReads(cfg, s, p) == ImpliedReads(cfg, s, q)
  {
    CondCongruent(cfg, s.defaults, 0, p, q);
    var d := ActiveDefault(cfg, s.defaults, 0, p);
    if d.Some? { ExprCongruent(cfg, s.defaults[d.value].value, p, q); }
    ExprCongruent(cfg, s.weakRevDep, p, q);
    if ExprValue(cfg, s.weakRevDep, p) != 0 { ExprCongruent(cfg, s.directDep, p, q); }
  }

  lemma TriCongruent(cfg: Config, u: User, i: nat, p: Env, q: Env)
    requires Agree(p, q, TriReads(cfg, u, i, p))
    ensures TriValue(cfg, u, i, p) == TriValue(cfg, u, i, q)
    ensures TriReads(cfg, u, i, p) == TriReads(cfg, u, i, q)
  {
    var s := At(cfg, i);
    if s.Symbol? && IsTriType(s.origType) && !s.isConstant {
      assert KVis(i) in TriReads(cfg, u, i, p);
      assert SameAt(p, q, KVis(i));
      if s.choice.Some? {
        if p.vis(i) == 2 { assert SameAt(p, q, KSel(s.choice.value)); }
      } else {
        if !UserTriCounts(u, i, p) { ImpliedCongruent(cfg, s, p, q); }
        ExprCongruent(cfg, s.revDep, p, q);
        if ExprValue(cfg, s.revDep, p) != 0 { ExprCongruent(cfg, s.directDep, p, q); }
        if SelectedTri(cfg, u, i, p) == 1 {
          TypeCongruent(cfg, s, p, q);
          if EffectiveType(cfg, s, p) != Bool { ExprCongruent(cfg, s.weakRevDep, p, q); }
        }
      }
    }
  }

  lemma {:induction false} RangeCongruent(cfg: Config, rs: seq<Range>, k: nat, p: Env, q: Env)
    requires Agree(p, q, RangeReads(cfg, rs, k, p))
    ensures ActiveRange(cfg, rs, k, p) == ActiveRange(cfg, rs, k, q)
    ensures RangeReads(cfg, rs, k, p) == RangeReads(cfg, rs, k, q)
    ensures var r := ActiveRange(cfg, rs, k, p);
            r.Some? ==> p.str(rs[r.value].low) == q.str(rs[r.value].low)
                        && p.str(rs[r.value].high) == q.str(rs[r.value].high)
    decreases |rs| - k
  {
    if k < |rs| {
      ExprCongruent(cfg, rs[k].cond, p, q);
      if ExprValue(cfg, rs[k].cond, p) != 0 {
        assert SameAt(p, q, KStr(rs[k].low)) && SameAt(p, q, KStr(rs[k].high));
      } else {
        RangeCongruent(cfg, rs, k + 1, p, q);
      }
    }
  }

  lemma DefaultTextCongruent(cfg: Config, ds: seq<Default>, p: Env, q: Env)
    requires Agree(p, q, DefaultTextReads(cfg, ds, p))
    ensures DefaultText(cfg, ds, p) == DefaultText(cfg, ds, q)
    ensures DefaultTextReads(cfg, ds, p) == DefaultTextReads(cfg, ds, q)
  {
    CondCongruent(cfg, ds, 0, p, q);
    var d := ActiveDefault(cfg, ds, 0, p);
    if d.Some? && ds[d.value].value.Atom? {
      assert SameAt(p, q, KStr(ds[d.value].value.item));
    }
  }

  lemma StrCongruent(cfg: Config, u: User, i: nat, p: Env, q: Env)
    requires Agree(p, q, StrReads(cfg, u, i, p))
    ensures StrValue(cfg, u, i, p) == StrValue(cfg, u, i, q)
    ensures StrReads(cfg, u, i, p) == StrReads(cfg, u, i, q)
  {
    var s := At(cfg, i);
    if !s.Symbol? || s.origType == Unknown {
    } else if IsTriType(s.origType) {
      assert SameAt(p, q, KTri(i));
    } else {
      assert KVis(i) in StrReads(cfg, u, i, p);
      assert SameAt(p, q, KVis(i));
      if s.origType == Str {
        if !(p.vis(i) != 0 && i in u.text) { DefaultTextCongruent(cfg, s.defaults, p, q); }
      } else {
        RangeCongruent(cfg, s.ranges, 0, p, q);
        if !UserNumberCounts(cfg, u, i, BoundsOf(cfg, s, p), p) { DefaultTextCongruent(cfg, s.defaults, p, q); }
      }
    }
  }

  lemma {:induction false} FromDefaultsCongruent(cfg: Config, ds: seq<Default>, k: nat, p: Env, q: Env)
    requires Agree(p, q, FromDefaultsReads(cfg, ds, k, p))
    ensures FromDefaults(cfg, ds, k, p) == FromDefaults(cfg, ds, k, q)
    ensures FromDefaultsReads(cfg, ds, k, p) == FromDefaultsReads(cfg, ds, k, q)
    decreases |ds| - k
  {
    if k < |ds| {
      if !ds[k].value.Atom? {
        FromDefaultsCongruent(cfg, ds, k + 1, p, q);
      } else {
        ExprCongruent(cfg, ds[k].cond, p, q);
        var x := ds[k].value.item;
        if ExprValue(cfg, ds[k].cond, p) != 0 {
          assert KVis(x) in FromDefaultsReads(cfg, ds, k, p);
          assert SameAt(p, q, KVis(x));
        }
        if ExprValue(cfg, ds[k].cond, p) == 0 || p.vis(x) == 0 {
          FromDefaultsCongruent(cfg, ds, k + 1, p, q);
        }
      }
    }
  }

  lemma {:induction false} FirstVisibleCongruent(syms: seq<nat>, k: nat, p: Env, q: Env)
    requires Agree(p, q, FirstVisibleReads(syms, k, p))
    ensures FirstVisible(syms, k, p) == FirstVisible(syms, k, q)
    ensures FirstVisibleReads(syms, k, p) == FirstVisibleReads(syms, k, q)
    decreases |syms| - k
  {
    if k < |syms| {
      assert SameAt(p, q, KVis(syms[k]));
      if p.vis(syms[k]) == 0 { FirstVisibleCongruent(syms, k + 1, p, q); }
    }
  }

  lemma SelCongruent(cfg: Config, u: User, i: nat, p: Env, q: Env)
    requires Agree(p, q, SelReads(cfg, u, i, p))
    ensures SelValue(cfg, u, i, p) == SelValue(cfg, u, i, q)
    ensures SelReads(cfg, u, i, p) == SelReads(cfg, u, i, q)
  {
    var c := At(cfg, i);
    if c.Choice? {
      assert KMode(i) in SelReads(cfg, u, i, p);
      assert SameAt(p, q, KMode(i));
      if p.mode(i) == 2 {
        if i in u.sel {
          assert KVis(u.sel[i]) in SelReads(cfg, u, i, p);
          assert SameAt(p, q, KVis(u.sel[i]));
        }
        if !UserSelCounts(u, i, p) {
          FromDefaultsCongruent(cfg, c.choiceDefaults, 0, p, q);
          if FromDefaults(cfg, c.choiceDefaults, 0, p).None? { FirstVisibleCongruent(c.syms, 0, p, q); }
        }
      }
    }
  }

  lemma ModeCongruent(cfg: Config, u: User, i: nat, p: Env, q: Env)
    requires Agree(p, q, ModeReads(cfg, u, i, p))
    ensures ModeValue(cfg, u, i, p) == ModeValue(cfg, u, i, q)
    ensures ModeReads(cfg, u, i, p) == ModeReads(cfg, u, i, q)
  {
  }

  /** What an evaluation looked at determines both its value and what it looked at. */
  lemma FormulaCongruent(cfg: Config, u: User, k: Key, p: Env, q: Env)
    requires Agree(p, q, Reads(cfg, u, k, p))
    ensures SameFormula(cfg, u, k, p, q)
    ensures Reads(cfg, u, k, p) == Reads(cfg, u, k, q)
  {
    match k {
      case KVis(i) => VisCongruent(cfg, i, p, q);
      case KTri(i) => TriCongruent(cfg, u, i, p, q);
      case KStr(i) => StrCongruent(cfg, u, i, p, q);
      case KSel(i) => SelCongruent(cfg, u, i, p, q);
      case KMode(i) => ModeCongruent(cfg, u, i, p, q);
    }
  }
}
