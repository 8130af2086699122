/**
  The value language of the Kconfig engine: symbols, choices, tristate
  expressions, and the formulas that define visibility, tristate value, string
  value, choice mode and choice selection.

  Every formula is written over an environment `Env` that supplies the
  attributes of the other items.  Beside each formula stands the set of
  attributes that an evaluation in that environment really looks at; the
  short-circuits of the evaluator make that set depend on the environment.
 */
module KconfigValues {
  import opened Basics

  datatype Type = Unknown | Bool | Tristate | Str | Int | Hex

  datatype RelOp = Equal | Unequal | Less | LessEqual | Greater | GreaterEqual

  datatype Expr =
    | Atom(item: nat)
    | And(l: Expr, r: Expr)
    | Or(l: Expr, r: Expr)
    | Not(e: Expr)
    | Rel(op: RelOp, a: nat, b: nat)

  datatype Default = Default(value: Expr, cond: Expr)

  datatype Range = Range(low: nat, high: nat, cond: Expr)

  /** An item is a symbol or a choice; items refer to each other by number. */
  datatype Item =
    | Symbol(name: string, origType: Type, isConstant: bool, defined: bool,
             prompts: seq<Expr>, defaults: seq<Default>,
             revDep: Expr, weakRevDep: Expr, directDep: Expr,
             ranges: seq<Range>, choice: Option<nat>)
    | Choice(origType: Type, isOptional: bool,
             prompts: seq<Expr>, choiceDefaults: seq<Default>, syms: seq<nat>)

  /**
    A parsed configuration.  `parse` is the number parser for a symbol type and
    `format` the number printer; nothing below depends on which ones they are.
   */
  datatype Config = Config(items: seq<Item>, modules: nat,
                           parse: (Type, string) -> Option<int>,
                           format: (Type, int) -> string)

  /** What the user assigned: modes and tristates, texts, choice selections. */
  datatype User = User(tri: map<nat, int>, text: map<nat, string>, sel: map<nat, nat>)

  /** An attribute of an item.  The mode of a choice is the only uncached one. */
  datatype Key = KVis(i: nat) | KTri(i: nat) | KStr(i: nat) | KSel(i: nat) | KMode(i: nat)

  datatype Env = Env(vis: nat -> int, tri: nat -> int, str: nat -> string,
                     sel: nat -> Option<nat>, mode: nat -> int)

  const UNDEFINED: Item :=
    Symbol("", Unknown, false, false, [], [], Atom(0), Atom(0), Atom(0), [], None)

  function At(cfg: Config, i: nat): Item {
    if i < |cfg.items| then cfg.items[i] else UNDEFINED
  }

  predicate IsTriType(t: Type) { t == Bool || t == Tristate }

  function TriName(v: int): string {
    if v == 0 then "n" else if v == 1 then "m" else "y"
  }

  function ConstTri(name: string): int {
    if name == "y" then 2 else if name == "m" then 1 else 0
  }

  // ---------------------------------------------------------------- expressions

  /** Lexicographic comparison of strings: -1, 0 or 1. */
  function StrCmp(s: string, t: string): int {
    if s == [] && t == [] then 0
    else if s == [] then -1
    else if t == [] then 1
    else if s[0] < t[0] then -1
    else if s[0] > t[0] then 1
    else StrCmp(s[1..], t[1..])
  }

  function Holds(op: RelOp, comp: int): bool {
    match op
    case Equal => comp == 0
    case Unequal => comp != 0
    case Less => comp < 0
    case LessEqual => comp <= 0
    case Greater => comp > 0
    case GreaterEqual => comp >= 0
  }

  /** The symbol as a number, if it has one. */
  function NumOf(cfg: Config, i: nat, env: Env): Option<int> {
    if IsTriType(At(cfg, i).origType) then Some(env.tri(i))
    else cfg.parse(At(cfg, i).origType, env.str(i))
  }

  function NumKey(cfg: Config, i: nat): Key {
    if IsTriType(At(cfg, i).origType) then KTri(i) else KStr(i)
  }

  predicate BothText(cfg: Config, a: nat, b: nat) {
    At(cfg, a).origType == Str && At(cfg, b).origType == Str
  }

  function Compare(cfg: Config, a: nat, b: nat, env: Env): int {
    if !BothText(cfg, a, b) && NumOf(cfg, a, env).Some? && NumOf(cfg, b, env).Some? then
      NumOf(cfg, a, env).value - NumOf(cfg, b, env).value
    else
      StrCmp(env.str(a), env.str(b))
  }

  function CompareReads(cfg: Config, a: nat, b: nat, env: Env): set<Key> {
    if BothText(cfg, a, b) then {KStr(a), KStr(b)}
    else if NumOf(cfg, a, env).None? then {NumKey(cfg, a), KStr(a), KStr(b)}
    else if NumOf(cfg, b, env).None? then {NumKey(cfg, a), NumKey(cfg, b), KStr(a), KStr(b)}
    else {NumKey(cfg, a), NumKey(cfg, b)}
  }

  function AtomKey(cfg: Config, i: nat): Key {
    if At(cfg, i).Choice? then KMode(i) else KTri(i)
  }

  /** `expr_value`: min for AND, max for OR, with the two short-circuits. */
  function ExprValue(cfg: Config, e: Expr, env: Env): int {
    match e
    case Atom(i) => if At(cfg, i).Choice? then env.mode(i) else env.tri(i)
    case And(l, r) =>
      var v := ExprValue(cfg, l, env);
      if v == 0 then 0 else Min(v, ExprValue(cfg, r, env))
    case Or(l, r) =>
      var v := ExprValue(cfg, l, env);
      if v == 2 then 2 else Max(v, ExprValue(cfg, r, env))
    case Not(x) => 2 - ExprValue(cfg, x, env)
    case Rel(op, a, b) => if Holds(op, Compare(cfg, a, b, env)) then 2 else 0
  }

  function ExprReads(cfg: Config, e: Expr, env: Env): set<Key> {
    match e
    case Atom(i) => {AtomKey(cfg, i)}
    case And(l, r) =>
      ExprReads(cfg, l, env)
      + (if ExprValue(cfg, l, env) == 0 then {} else ExprReads(cfg, r, env))
    case Or(l, r) =>
      ExprReads(cfg, l, env)
      + (if ExprValue(cfg, l, env) == 2 then {} else ExprReads(cfg, r, env))
    case Not(x) => ExprReads(cfg, x, env)
    case Rel(_, a, b) => CompareReads(cfg, a, b, env)
  }

  // ---------------------------------------------------------------- visibility

  /** The strongest prompt condition, from prompt `k` on. */
  function PromptVis(cfg: Config, ps: seq<Expr>, k: nat, env: Env): (v: int)
    ensures v >= 0
    decreases |ps| - k
  {
    if k >= |ps| then 0
    else Max(ExprValue(cfg, ps[k], env), PromptVis(cfg, ps, k + 1, env))
  }

  function PromptReads(cfg: Config, ps: seq<Expr>, k: nat, env: Env): set<Key>
    decreases |ps| - k
  {
    if k >= |ps| then {}
    else ExprReads(cfg, ps[k], env) + PromptReads(cfg, ps, k + 1, env)
  }

  /** The mode of the choice that contains symbol `s`, or 0 outside choices. */
  function OwnMode(s: Item, env: Env): int
    requires s.Symbol?
  {
    if s.choice.Some? then env.mode(s.choice.value) else 0
  }

  predicate HiddenByMode(cfg: Config, s: Item, v: int, env: Env) {
    && s.Symbol? && s.choice.Some?
    && (|| (At(cfg, s.choice.value).origType == Tristate && s.origType != Tristate && OwnMode(s, env) != 2)
        || (s.origType == Tristate && v == 1 && OwnMode(s, env) == 2))
  }

  /** `type`: a tristate counts as bool in a y-mode choice or without MODULES. */
  function EffectiveType(cfg: Config, s: Item, env: Env): Type {
    if s.origType == Tristate
       && ((s.Symbol? && s.choice.Some? && OwnMode(s, env) == 2) || env.tri(cfg.modules) == 0)
    then Bool else s.origType
  }

  function Promote(cfg: Config, s: Item, v: int, env: Env): int {
    if v == 1 && EffectiveType(cfg, s, env) != Tristate then 2 else v
  }

  function VisValue(cfg: Config, i: nat, env: Env): int {
    var s := At(cfg, i);
    var v := PromptVis(cfg, s.prompts, 0, env);
    if HiddenByMode(cfg, s, v, env) then 0 else Promote(cfg, s, v, env)
  }

  function ModeKeyOf(s: Item): set<Key> {
    if s.Symbol? && s.choice.Some? then {KMode(s.choice.value)} else {}
  }

  /** Whether `_visibility` asks for the mode of the surrounding choice. */
  predicate AsksMode(cfg: Config, s: Item, v: int) {
    && s.Symbol? && s.choice.Some?
    && if s.origType == Tristate then v == 1 else At(cfg, s.choice.value).origType == Tristate
  }

  /** MODULES is looked at only for a tristate outside a y-mode choice. */
  function TypeReads(cfg: Config, s: Item, env: Env): set<Key> {
    if s.origType != Tristate then {}
    else if s.Symbol? && s.choice.Some? && OwnMode(s, env) == 2 then ModeKeyOf(s)
    else ModeKeyOf(s) + {KTri(cfg.modules)}
  }

  /** An item without prompts is invisible whatever else holds. */
  function VisReads(cfg: Config, i: nat, env: Env): set<Key> {
    var s := At(cfg, i);
    var v := PromptVis(cfg, s.prompts, 0, env);
    if s.prompts == [] then {}
    else
      PromptReads(cfg, s.prompts, 0, env) + (if AsksMode(cfg, s, v) then ModeKeyOf(s) else {})
      + (if v == 1 && !HiddenByMode(cfg, s, v, env) then TypeReads(cfg, s, env) else {})
  }

  // ---------------------------------------------------------------- tristate values

  /** The first default whose condition is not n, from default `k` on. */
  function ActiveDefault(cfg: Config, ds: seq<Default>, k: nat, env: Env): (r: Option<nat>)
    ensures r.Some? ==> k <= r.value < |ds|
    decreases |ds| - k
  {
    if k >= |ds| then None
    else if ExprValue(cfg, ds[k].cond, env) != 0 then Some(k)
    else ActiveDefault(cfg, ds, k + 1, env)
  }

  function CondReads(cfg: Config, ds: seq<Default>, k: nat, env: Env): set<Key>
    decreases |ds| - k
  {
    if k >= |ds| then {}
    else ExprReads(cfg, ds[k].cond, env)
         + (if ExprValue(cfg, ds[k].cond, env) != 0 then {} else CondReads(cfg, ds, k + 1, env))
  }

  function DefaultTri(cfg: Config, ds: seq<Default>, env: Env): int {
    var d := ActiveDefault(cfg, ds, 0, env);
    if d.None? then 0
    else Min(ExprValue(cfg, ds[d.value].value, env), ExprValue(cfg, ds[d.value].cond, env))
  }

  function DefaultTriReads(cfg: Config, ds: seq<Default>, env: Env): set<Key> {
    var d := ActiveDefault(cfg, ds, 0, env);
    CondReads(cfg, ds, 0, env) + (if d.None? then {} else ExprReads(cfg, ds[d.value].value, env))
  }

  /** Defaults, raised by `imply` while the direct dependencies are met. */
  function ImpliedTri(cfg: Config, s: Item, env: Env): int
    requires s.Symbol?
  {
    var d := DefaultTri(cfg, s.defaults, env);
    var w := ExprValue(cfg, s.weakRevDep, env);
    if w != 0 && ExprValue(cfg, s.directDep, env) != 0 then Max(w, d) else d
  }

  function ImpliedReads(cfg: Config, s: Item, env: Env): set<Key>
    requires s.Symbol?
  {
    DefaultTriReads(cfg, s.defaults, env) + ExprReads(cfg, s.weakRevDep, env)
    + (if ExprValue(cfg, s.weakRevDep, env) != 0 then ExprReads(cfg, s.directDep, env) else {})
  }

  predicate UserTriCounts(u: User, i: nat, env: Env) {
    env.vis(i) != 0 && i in u.tri
  }

  /** The value before reverse dependencies: the user's, else the defaults'. */
  function BaseTri(cfg: Config, u: User, i: nat, env: Env): int
    requires At(cfg, i).Symbol?
  {
    if UserTriCounts(u, i, env) then Min(u.tri[i], env.vis(i))
    else ImpliedTri(cfg, At(cfg, i), env)
  }

  /** `select` takes precedence over everything else. */
  function SelectedTri(cfg: Config, u: User, i: nat, env: Env): int
    requires At(cfg, i).Symbol?
  {
    var r := ExprValue(cfg, At(cfg, i).revDep, env);
    var b := BaseTri(cfg, u, i, env);
    if r != 0 then Max(r, b) else b
  }

  function TriValue(cfg: Config, u: User, i: nat, env: Env): int {
    var s := At(cfg, i);
    if !s.Symbol? || !IsTriType(s.origType) then 0
    else if s.isConstant then ConstTri(s.name)
    else if s.choice.None? then
      var v := SelectedTri(cfg, u, i, env);
      if v == 1 && (EffectiveType(cfg, s, env) == Bool || ExprValue(cfg, s.weakRevDep, env) == 2) then 2 else v
    else if env.vis(i) == 2 then (if env.sel(s.choice.value) == Some(i) then 2 else 0)
    else if env.vis(i) != 0 && i in u.tri && u.tri[i] != 0 then 1
    else 0
  }

  /** A selected symbol also looks at its direct dependencies, for a warning only. */
  function SelectedReads(cfg: Config, u: User, i: nat, env: Env): set<Key>
    requires At(cfg, i).Symbol?
  {
    {KVis(i)}
    + (if UserTriCounts(u, i, env) then {} else ImpliedReads(cfg, At(cfg, i), env))
    + ExprReads(cfg, At(cfg, i).revDep, env)
    + (if ExprValue(cfg, At(cfg, i).revDep, env) != 0 then ExprReads(cfg, At(cfg, i).directDep, env) else {})
  }

  function TriReads(cfg: Config, u: User, i: nat, env: Env): set<Key> {
    var s := At(cfg, i);
    if !s.Symbol? || !IsTriType(s.origType) || s.isConstant then {}
    else if s.choice.None? then
      SelectedReads(cfg, u, i, env)
      + (if SelectedTri(cfg, u, i, env) == 1
         then TypeReads(cfg, s, env)
              + (if EffectiveType(cfg, s, env) == Bool then {} else ExprReads(cfg, s.weakRevDep, env))
         else {})
    else if env.vis(i) == 2 then {KVis(i), KSel(s.choice.value)}
    else {KVis(i)}
  }

  // ---------------------------------------------------------------- string values

  function ActiveRange(cfg: Config, rs: seq<Range>, k: nat, env: Env): (r: Option<nat>)
    ensures r.Some? ==> k <= r.value < |rs|
    decreases |rs| - k
  {
    if k >= |rs| then None
    else if ExprValue(cfg, rs[k].cond, env) != 0 then Some(k)
    else ActiveRange(cfg, rs, k + 1, env)
  }

  function RangeReads(cfg: Config, rs: seq<Range>, k: nat, env: Env): set<Key>
    decreases |rs| - k
  {
    if k >= |rs| then {}
    else ExprReads(cfg, rs[k].cond, env)
         + (if ExprValue(cfg, rs[k].cond, env) != 0 then {KStr(rs[k].low), KStr(rs[k].high)}
            else RangeReads(cfg, rs, k + 1, env))
  }

  function Number(cfg: Config, t: Type, s: string): int {
    var n := cfg.parse(t, s);
    if n.Some? then n.value else 0
  }

  datatype Bounds = Unbounded | Bounded(low: int, high: int)

  predicate InBounds(n: int, b: Bounds) {
    b.Bounded? ==> b.low <= n <= b.high
  }

  function BoundsOf(cfg: Config, s: Item, env: Env): Bounds
    requires s.Symbol?
  {
    var r := ActiveRange(cfg, s.ranges, 0, env);
    if r.None? then Unbounded
    else Bounded(Number(cfg, s.origType, env.str(s.ranges[r.value].low)),
                 Number(cfg, s.origType, env.str(s.ranges[r.value].high)))
  }

  /** The text of the first active default; only a single symbol has a text. */
  function DefaultText(cfg: Config, ds: seq<Default>, env: Env): string {
    var d := ActiveDefault(cfg, ds, 0, env);
    if d.Some? && ds[d.value].value.Atom? then env.str(ds[d.value].value.item) else ""
  }

  function DefaultTextReads(cfg: Config, ds: seq<Default>, env: Env): set<Key> {
    var d := ActiveDefault(cfg, ds, 0, env);
    CondReads(cfg, ds, 0, env)
    + (if d.Some? && ds[d.value].value.Atom? then {KStr(ds[d.value].value.item)} else {})
  }

  /** Defaults are clamped into the active range, in standard form. */
  function ClampedDefault(cfg: Config, s: Item, b: Bounds, env: Env): string
    requires s.Symbol?
  {
    var t := DefaultText(cfg, s.defaults, env);
    var n := Number(cfg, s.origType, t);
    if b.Bounded? && n < b.low then cfg.format(s.origType, b.low)
    else if b.Bounded? && n > b.high then cfg.format(s.origType, b.high)
    else t
  }

  predicate UserNumberCounts(cfg: Config, u: User, i: nat, b: Bounds, env: Env) {
    && env.vis(i) != 0 && i in u.text && u.text[i] != ""
    && InBounds(Number(cfg, At(cfg, i).origType, u.text[i]), b)
  }

  function StrValue(cfg: Config, u: User, i: nat, env: Env): string {
    var s := At(cfg, i);
    if !s.Symbol? then ""
    else if IsTriType(s.origType) then TriName(env.tri(i))
    else if s.origType == Unknown then s.name
    else if s.origType == Str then
      if env.vis(i) != 0 && i in u.text then u.text[i] else DefaultText(cfg, s.defaults, env)
    else
      var b := BoundsOf(cfg, s, env);
      if UserNumberCounts(cfg, u, i, b, env) then u.text[i] else ClampedDefault(cfg, s, b, env)
  }

  function StrReads(cfg: Config, u: User, i: nat, env: Env): set<Key> {
    var s := At(cfg, i);
    if !s.Symbol? || s.origType == Unknown then {}
    else if IsTriType(s.origType) then {KTri(i)}
    else if s.origType == Str then
      {KVis(i)} + (if env.vis(i) != 0 && i in u.text then {} else DefaultTextReads(cfg, s.defaults, env))
    else
      {KVis(i)} + RangeReads(cfg, s.ranges, 0, env)
      + (if UserNumberCounts(cfg, u, i, BoundsOf(cfg, s, env), env) then {}
         else DefaultTextReads(cfg, s.defaults, env))
  }

  // ---------------------------------------------------------------- choices

  /** The choice's mode before m is promoted for boolean choices. */
  function RawMode(cfg: Config, u: User, i: nat, env: Env): int
    requires At(cfg, i).Choice?
  {
    var own := if At(cfg, i).isOptional then 0 else 1;
    Min(if i in u.tri then Max(own, u.tri[i]) else own, env.vis(i))
  }

  function ModeValue(cfg: Config, u: User, i: nat, env: Env): int {
    if !At(cfg, i).Choice? then 0
    else if RawMode(cfg, u, i, env) == 1 && EffectiveType(cfg, At(cfg, i), env) == Bool then 2
    else RawMode(cfg, u, i, env)
  }

  function ModeReads(cfg: Config, u: User, i: nat, env: Env): set<Key> {
    if !At(cfg, i).Choice? then {}
    else {KVis(i)} + (if RawMode(cfg, u, i, env) == 1 then TypeReads(cfg, At(cfg, i), env) else {})
  }

  function FromDefaults(cfg: Config, ds: seq<Default>, k: nat, env: Env): Option<nat>
    decreases |ds| - k
  {
    if k >= |ds| then None
    else if ds[k].value.Atom? && ExprValue(cfg, ds[k].cond, env) != 0 && env.vis(ds[k].value.item) != 0 then
      Some(ds[k].value.item)
    else FromDefaults(cfg, ds, k + 1, env)
  }

  function FromDefaultsReads(cfg: Config, ds: seq<Default>, k: nat, env: Env): set<Key>
    decreases |ds| - k
  {
    if k >= |ds| then {}
    else if !ds[k].value.Atom? then FromDefaultsReads(cfg, ds, k + 1, env)
    else
      ExprReads(cfg, ds[k].cond, env)
      + (if ExprValue(cfg, ds[k].cond, env) == 0 then FromDefaultsReads(cfg, ds, k + 1, env)
         else {KVis(ds[k].value.item)}
              + (if env.vis(ds[k].value.item) != 0 then {} else FromDefaultsReads(cfg, ds, k + 1, env)))
  }

  function FirstVisible(syms: seq<nat>, k: nat, env: Env): Option<nat>
    decreases |syms| - k
  {
    if k >= |syms| then None
    else if env.vis(syms[k]) != 0 then Some(syms[k])
    else FirstVisible(syms, k + 1, env)
  }

  function FirstVisibleReads(syms: seq<nat>, k: nat, env: Env): set<Key>
    decreases |syms| - k
  {
    if k >= |syms| then {}
    else {KVis(syms[k])} + (if env.vis(syms[k]) != 0 then {} else FirstVisibleReads(syms, k + 1, env))
  }

  predicate UserSelCounts(u: User, i: nat, env: Env) {
    i in u.sel && env.vis(u.sel[i]) != 0
  }

  /** A y-mode choice selects the user's symbol, else a default, else the first visible one. */
  function SelValue(cfg: Config, u: User, i: nat, env: Env): Option<nat> {
    var c := At(cfg, i);
    if !c.Choice? || env.mode(i) != 2 then None
    else if UserSelCounts(u, i, env) then Some(u.sel[i])
    else if FromDefaults(cfg, c.choiceDefaults, 0, env).Some? then FromDefaults(cfg, c.choiceDefaults, 0, env)
    else FirstVisible(c.syms, 0, env)
  }

  function SelReads(cfg: Config, u: User, i: nat, env: Env): set<Key> {
    var c := At(cfg, i);
    if !c.Choice? then {}
    else if env.mode(i) != 2 then {KMode(i)}
    else
      {KMode(i)} + (if i in u.sel then {KVis(u.sel[i])} else {})
      + (if UserSelCounts(u, i, env) then {}
         else FromDefaultsReads(cfg, c.choiceDefaults, 0, env)
              + (if FromDefaults(cfg, c.choiceDefaults, 0, env).Some? then {}
                 else FirstVisibleReads(c.syms, 0, env)))
  }

  function Reads(cfg: Config, u: User, k: Key, env: Env): set<Key> {
    match k
    case KVis(i) => VisReads(cfg, i, env)
    case KTri(i) => TriReads(cfg, u, i, env)
    case KStr(i) => StrReads(cfg, u, i, env)
    case KSel(i) => SelReads(cfg, u, i, env)
    case KMode(i) => ModeReads(cfg, u, i, env)
  }
}
