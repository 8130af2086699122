/**
  Saving and loading on the caching engine: the loops that write `.config` from
  cached values and read it back through `set_value` and `unset_value`.
 */
module KconfigReload {
  import opened Basics
  import opened KconfigValues
  import opened KconfigCongruence
  import opened KconfigScratch
  import opened KconfigCoherence
  import opened KconfigEngine
  import opened KconfigFile

  // ---------------------------------------------------------------- other lines of the file

  /** The lines that assign a value to a symbol; comments and blank lines do not. */
  ghost function Assigning(cfg: Config, lines: seq<string>): seq<string> {
    if lines == [] then []
    else (if LineAssigns(cfg, lines[0]).Some? then [lines[0]] else []) + Assigning(cfg, lines[1..])
  }

  lemma {:induction false} OnlyAssigningLines(cfg: Config, st: Loading, lines: seq<string>)
    ensures LoadLines(cfg, st, lines) == LoadLines(cfg, st, Assigning(cfg, lines))
    decreases |lines|
  {
    if lines != [] {
      var rest := Assigning(cfg, lines[1..]);
      OnlyAssigningLines(cfg, LoadLine(cfg, st, lines[0]), lines[1..]);
      if LineAssigns(cfg, lines[0]).Some? {
        assert ([lines[0]] + rest)[1..] == rest;
      } else {
        assert [] + rest == rest;
      }
    }
  }

  /** Menu titles and other comments may surround the written lines. */
  lemma CommentedRoundTrip(cfg: Config, rank: Key -> nat, u: User, before: User, order: seq<nat>,
                           lines: seq<string>, k: Key)
    requires Acyclic(cfg, rank) && Sane(cfg) && Plain(cfg) && IsOrder(cfg, order)
    requires UserOk(cfg, u) && UserValid(cfg, u) && UserValid(cfg, before)
    requires CleanConfig(cfg, Scratch(cfg, u, rank))
    requires Assigning(cfg, lines) == ConfigLines(cfg, u, Scratch(cfg, u, rank), order, 0)
    ensures SameAt(Scratch(cfg, u, rank), Scratch(cfg, LoadConfig(cfg, before, lines), rank), k)
  {
    hide Plain, Sane, Writable, Writes, ConfigLines, Scratch, UserValid, LoadLine, LoadLines;
    var env := Scratch(cfg, u, rank);
    var written := ConfigLines(cfg, u, env, order, 0);
    OnlyAssigningLines(cfg, Loading(before, {}), lines);
    assert LoadConfig(cfg, before, lines) == LoadConfig(cfg, before, written);
    ScratchWritable(cfg, u, rank);
    LoadedIsReloaded(cfg, u, env, order, before);
    ReloadedSame(cfg, u, LoadConfig(cfg, before, written), rank, k);
  }

  // ---------------------------------------------------------------- writing

  /** Whether a bool symbol gets a line, from cached values. */
  method WritesBool(k: Kconfig, i: nat) returns (w: bool)
    requires k.Valid()
    requires At(k.cfg, i).Symbol? && At(k.cfg, i).origType == Bool && !At(k.cfg, i).isConstant
    requires At(k.cfg, i).choice.None?
    modifies k`cache
    ensures k.Valid() && w == WritesTri(k.cfg, k.user, i, k.Truth())
  {
    hide Scratch, Coherent, Acyclic, Sane;
    var s := At(k.cfg, i);
    ghost var r := k.rank(KTri(i));
    TriRanks(k.cfg, k.rank, i);
    var vis := k.Visibility(i);
    if vis != 0 { return true; }
    var d, cond := k.FindDefault(s.defaults, r);
    if d.Some? {
      DefaultRanks(k.cfg, k.rank, s.defaults, r, d.value);
      var x := k.EvalExpr(s.defaults[d.value].value, r);
      if Min(x, cond) != 0 { return true; }
    }
    var weak := k.EvalExpr(s.weakRevDep, r);
    if weak != 0 {
      var direct := k.EvalExpr(s.directDep, r);
      if direct != 0 { return true; }
    }
    var dep := k.EvalExpr(s.revDep, r);
    return dep != 0;
  }

  /** `config_string`: the line of a symbol, or nothing. */
  method ConfigString(k: Kconfig, i: nat) returns (line: Option<string>)
    requires k.Valid() && Plain(k.cfg) && At(k.cfg, i).Symbol? && At(k.cfg, i).defined
    modifies k`cache
    ensures k.Valid()
    ensures line == if Writes(k.cfg, k.user, i, k.Truth()) then Some(ConfigLine(At(k.cfg, i), k.Truth().str(i)))
                    else None
  {
    var s := At(k.cfg, i);
    assert SaneItem(k.cfg, i);
    hide Scratch, Coherent, Acyclic, Sane, ConfigLine;
    var w := false;
    if s.origType == Bool {
      w := WritesBool(k, i);
    } else if s.origType != Unknown {
      TextRanks(k.cfg, k.rank, i);
      var vis := k.Visibility(i);
      w := vis != 0;
      if !w {
        var d, cond := k.FindDefault(s.defaults, k.rank(KStr(i)));
        w := d.Some?;
      }
    }
    if !w { return None; }
    var val := k.Text(i);
    return Some(ConfigLine(s, val));
  }

  /** `_config_contents`: the lines of all symbols, in menu order. */
  method WriteConfig(k: Kconfig, order: seq<nat>) returns (file: string)
    requires k.Valid() && Plain(k.cfg) && IsOrder(k.cfg, order)
    modifies k`cache
    ensures k.Valid() && file == Contents(ConfigLines(k.cfg, k.user, k.Truth(), order, 0))
  {
    hide Scratch, Coherent, Acyclic, Sane, ConfigLine, Writes, Plain;
    var lines := [];
    var m := 0;
    ghost var env := k.Truth();
    while m < |order|
      invariant k.Valid() && m <= |order|
      invariant ConfigLines(k.cfg, k.user, env, order, 0) == lines + ConfigLines(k.cfg, k.user, env, order, m)
    {
      assert order[m] in order;
      var line := ConfigString(k, order[m]);
      if line.Some? { lines := lines + [line.value]; }
      m := m + 1;
    }
    assert lines + [] == lines;
    file := Contents(lines);
  }

  // ---------------------------------------------------------------- loading

  /** `syms.get`, restricted to defined symbols. */
  method FindSymbol(cfg: Config, name: string) returns (r: Option<nat>)
    requires Plain(cfg)
    ensures r == SymbolNamed(cfg, name)
  {
    var i := 0;
    while i < |cfg.items|
      invariant i <= |cfg.items|
      invariant forall j :: 0 <= j < i ==> !Named(cfg, j, name)
    {
      var s := cfg.items[i];
      if s.Symbol? && s.defined && s.name == name {
        assert Named(cfg, i, name);
        return Some(i);
      }
      i := i + 1;
    }
    return None;
  }

  /** One line of the file. */
  method ParseLine(cfg: Config, raw: string) returns (a: Option<(nat, Value)>)
    requires Plain(cfg)
    ensures a == LineAssigns(cfg, raw)
  {
    hide Plain;
    var line := RStrip(raw);
    var m := SetMatch(line);
    if m.Some? {
      var i := FindSymbol(cfg, m.value.0);
      if i.None? { return None; }
      var v := AssignedText(At(cfg, i.value).origType, m.value.1);
      if v.None? { return None; }
      return Some((i.value, v.value));
    }
    var n := UnsetMatch(line);
    if n.None? { return None; }
    var i := FindSymbol(cfg, n.value);
    if i.None? || !IsTriType(At(cfg, i.value).origType) { return None; }
    return Some((i.value, VText("n")));
  }

  /** `_load_config` with replace. */
  method LoadFile(k: Kconfig, lines: seq<string>)
    requires k.Valid() && Plain(k.cfg)
    modifies k
    ensures k.Valid() && k.user == LoadConfig(k.cfg, old(k.user), lines)
  {
    hide Scratch, Coherent, Acyclic, Sane, IsValidFor, LineAssigns;
    var wasSet: set<nat> := {};
    var m := 0;
    while m < |lines|
      invariant k.Valid() && m <= |lines|
      invariant LoadLines(k.cfg, Loading(old(k.user), {}), lines)
             == LoadLines(k.cfg, Loading(k.user, wasSet), lines[m..])
    {
      assert lines[m..][0] == lines[m] && lines[m..][1..] == lines[m + 1..];
      var a := ParseLine(k.cfg, lines[m]);
      if a.Some? {
        var (i, given) := a.value;
        assert At(k.cfg, i).Symbol? by { AssignsToSymbol(k.cfg, lines[m]); }
        var ok := k.SetValue(i, given);
        if ok { wasSet := wasSet + {i}; }
      }
      m := m + 1;
    }
    UnsetRest(k, wasSet);
  }

  lemma AssignsToSymbol(cfg: Config, line: string)
    ensures var a := LineAssigns(cfg, line); a.Some? ==> At(cfg, a.value.0).Symbol? && At(cfg, a.value.0).defined
  {
  }

  /** The symbols the file did not set lose their user values. */
  method UnsetRest(k: Kconfig, wasSet: set<nat>)
    requires k.Valid() && Plain(k.cfg)
    modifies k
    ensures k.Valid() && k.user == Cleared(old(k.user), DefinedItems(k.cfg) - wasSet)
  {
    hide Scratch, Coherent, Acyclic, Sane;
    var i := 0;
    ghost var u := k.user;
    assert Cleared(u, {}) == u;
    ghost var gone: set<nat> := {};
    while i < |k.cfg.items|
      invariant i <= |k.cfg.items| && k.Valid()
      invariant gone == set j | 0 <= j < i && InGraph(k.cfg.items[j]) && j !in wasSet
      invariant k.user == Cleared(u, gone)
    {
      if k.cfg.items[i].Symbol? && k.cfg.items[i].defined && i !in wasSet {
        k.UnsetValue(i);
        assert Unassigned(Cleared(u, gone), i) == Cleared(u, gone + {i});
        gone := gone + {i};
      }
      i := i + 1;
    }
    assert gone == DefinedItems(k.cfg) - wasSet;
  }

  // ---------------------------------------------------------------- the round trip

  /**
    Saving one engine and loading the file into another with the same symbols
    makes every value of the second equal to the one of the first.
   */
  method SaveAndLoad(a: Kconfig, b: Kconfig, order: seq<nat>)
    requires a != b && a.Valid() && b.Valid() && a.cfg == b.cfg && a.rank == b.rank
    requires Plain(a.cfg) && IsOrder(a.cfg, order)
    requires UserValid(a.cfg, a.user) && UserValid(a.cfg, b.user) && CleanConfig(a.cfg, a.Truth())
    modifies a, b
    ensures a.Valid() && b.Valid() && a.user == old(a.user)
    ensures forall key :: SameAt(a.Truth(), b.Truth(), key)
  {
    hide Scratch, Coherent, Acyclic, Sane, Plain, Contents, LinesOf, ConfigLines, CleanConfig, LoadConfig, UserValid;
    ghost var before := b.user;
    var file := WriteConfig(a, order);
    LoadFile(b, LinesOf(file, ""));
    forall key: Key ensures SameAt(a.Truth(), b.Truth(), key) {
      ConfigRoundTrip(a.cfg, a.rank, a.user, before, order, key);
    }
  }
}
