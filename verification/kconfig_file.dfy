/**
  Writing a configuration to `.config` lines and reading it back.  Lines are
  strings without their newline.  The round trip gives every symbol the value
  it had, for configurations of bool, int, hex and string symbols.
 */
module KconfigFile {
  import opened Basics
  import opened KconfigValues
  import opened KconfigCongruence
  import opened KconfigScratch
  import opened KconfigLaws
  import opened KconfigCoherence
  import opened KconfigEngine

  // ---------------------------------------------------------------- strings

  /** `str.replace` of one character by a text. */
  function ReplaceChar(s: string, c: char, t: string): string {
    if s == "" then "" else (if s[0] == c then t else [s[0]]) + ReplaceChar(s[1..], c, t)
  }

  /** `escape`: backslashes first, then quotes. */
  function Escape(s: string): string {
    ReplaceChar(ReplaceChar(s, '\\', "\\\\"), '\"', "\\\"")
  }

  function EscapeChar(c: char): string {
    if c == '\\' then "\\\\" else if c == '\"' then "\\\"" else [c]
  }

  /** `unescape`: a backslash followed by a character stands for that character. */
  function Unescape(s: string): string {
    if |s| >= 2 && s[0] == '\\' && s[1] != '\n' then [s[1]] + Unescape(s[2..])
    else if s == "" then ""
    else [s[0]] + Unescape(s[1..])
  }

  /** The text up to the closing quote, as matched by the string literal pattern. */
  function UpToQuote(s: string): Option<string> {
    if s == "" then None
    else if s[0] == '\"' then Some("")
    else if s[0] == '\\' then
      if |s| >= 2 && s[1] != '\n' then
        var r := UpToQuote(s[2..]);
        if r.Some? then Some(s[..2] + r.value) else None
      else None
    else
      var r := UpToQuote(s[1..]);
      if r.Some? then Some([s[0]] + r.value) else None
  }

  function Literal(s: string): Option<string> {
    if s != "" && s[0] == '\"' then
      var r := UpToQuote(s[1..]);
      if r.Some? then Some(Unescape(r.value)) else None
    else None
  }

  lemma {:induction false} ReplaceCons(s: string, c: char, t: string, x: string)
    ensures ReplaceChar(x + s, c, t) == ReplaceChar(x, c, t) + ReplaceChar(s, c, t)
    decreases |x|
  {
    if x == "" {
      assert x + s == s;
    } else {
      assert (x + s)[1..] == x[1..] + s;
      ReplaceCons(s, c, t, x[1..]);
    }
  }

  /** The two passes of `escape` act on each character separately. */
  lemma {:induction false} EscapeStep(s: string)
    requires s != ""
    ensures Escape(s) == EscapeChar(s[0]) + Escape(s[1..])
  {
    var first := if s[0] == '\\' then "\\\\" else [s[0]];
    ReplaceCons(ReplaceChar(s[1..], '\\', "\\\\"), '\"', "\\\"", first);
    assert ReplaceChar(first, '\"', "\\\"") == EscapeChar(s[0]) by {
      assert first[1..] == if s[0] == '\\' then "\\" else "";
      if s[0] == '\\' {
        assert first == "\\\\" && first[1..][1..] == "";
        assert ReplaceChar(first[1..], '\"', "\\\"") == "\\";
      }
    }
  }

  lemma EscapeEmpty()
    ensures Escape("") == ""
  {
  }

  /** One escaped character in front of a text that reads back. */
  lemma EscapedCharSurvives(c: char, e: string, rest: string, t: string)
    requires c != '\n' && UpToQuote(e + "\"" + rest) == Some(e) && Unescape(e) == t
    ensures UpToQuote(EscapeChar(c) + e + "\"" + rest) == Some(EscapeChar(c) + e)
    ensures Unescape(EscapeChar(c) + e) == [c] + t
  {
    var x := EscapeChar(c);
    var whole := x + e + "\"" + rest;
    assert whole[|x|..] == e + "\"" + rest && whole[..|x|] == x;
    assert (x + e)[|x|..] == e && forall k :: 0 <= k < |x| ==> (x + e)[k] == x[k] && whole[k] == x[k];
  }

  lemma {:induction false} EscapeSurvives(s: string, rest: string)
    requires '\n' !in s
    ensures UpToQuote(Escape(s) + "\"" + rest) == Some(Escape(s)) && Unescape(Escape(s)) == s
    decreases |s|
  {
    hide Escape, EscapeChar;
    if s == "" {
      EscapeEmpty();
      assert "" + "\"" + rest == "\"" + rest;
    } else {
      EscapeStep(s);
      EscapeSurvives(s[1..], rest);
      EscapedCharSurvives(s[0], Escape(s[1..]), rest, s[1..]);
      assert s == [s[0]] + s[1..];
    }
  }

  /** Quoting and reading back a string gives the string. */
  lemma LiteralRoundTrip(s: string)
    requires '\n' !in s
    ensures Literal("\"" + Escape(s) + "\"") == Some(s)
  {
    EscapeSurvives(s, "");
    var lit := "\"" + Escape(s) + "\"";
    assert lit[1..] == Escape(s) + "\"" + "";
  }

  // ---------------------------------------------------------------- lines

  const PREFIX: string := "CONFIG_"

  predicate IsSpace(c: char) {
    c == ' ' || c == '\t' || c == '\n' || c == '\r' || c == 11 as char || c == 12 as char
  }

  /** `rstrip` */
  function RStrip(s: string): string {
    if s != "" && IsSpace(s[|s| - 1]) then RStrip(s[..|s| - 1]) else s
  }

  /** Position of the first `c` in `s`. */
  function Find(s: string, c: char): Option<nat> {
    if s == "" then None
    else if s[0] == c then Some(0)
    else
      var r := Find(s[1..], c);
      if r.Some? then Some(r.value + 1) else None
  }

  /** A line of the form `CONFIG_<name>=<value>`. */
  function SetMatch(line: string): Option<(string, string)> {
    if PREFIX <= line then
      var rest := line[|PREFIX|..];
      var p := Find(rest, '=');
      if p.Some? && 0 < p.value < |rest| then Some((rest[..p.value], rest[p.value + 1..])) else None
    else None
  }

  const NOT_SET: string := " is not set"

  /** A line that starts with `# CONFIG_<name> is not set`. */
  function UnsetMatch(line: string): Option<string> {
    var head := "# " + PREFIX;
    if head <= line then
      var rest := line[|head|..];
      var p := Find(rest, ' ');
      if p.Some? && 0 < p.value <= |rest| && NOT_SET <= rest[p.value..] then Some(rest[..p.value]) else None
    else None
  }

  lemma {:induction false} FindFirst(s: string, c: char, rest: string)
    requires c !in s
    ensures Find(s + [c] + rest, c) == Some(|s|)
    decreases |s|
  {
    var whole := s + [c] + rest;
    if s != "" {
      assert whole[1..] == s[1..] + [c] + rest && whole[0] == s[0];
      FindFirst(s[1..], c, rest);
    }
  }

  lemma SetMatchOf(name: string, val: string)
    requires name != "" && '=' !in name
    ensures SetMatch(PREFIX + name + "=" + val) == Some((name, val))
  {
    var line := PREFIX + name + "=" + val;
    var rest := line[|PREFIX|..];
    assert line[..|PREFIX|] == PREFIX;
    assert rest == name + "=" + val;
    FindFirst(name, '=', val);
    assert rest[..|name|] == name && rest[|name| + 1..] == val;
  }

  lemma UnsetMatchOf(name: string)
    requires name != "" && ' ' !in name
    ensures SetMatch("# " + PREFIX + name + NOT_SET) == None
    ensures UnsetMatch("# " + PREFIX + name + NOT_SET) == Some(name)
  {
    var head := "# " + PREFIX;
    var line := "# " + PREFIX + name + NOT_SET;
    assert line == head + (name + NOT_SET);
    assert line[0] == '#' && PREFIX[0] == 'C';
    var rest := line[|head|..];
    assert rest == name + NOT_SET;
    FindFirst(name, ' ', "is not set");
    assert NOT_SET == [' '] + "is not set";
    assert name + NOT_SET == name + [' '] + "is not set";
    assert rest[|name|..] == NOT_SET && rest[..|name|] == name;
  }

  // ---------------------------------------------------------------- what gets written

  /** `_write_to_conf` for a bool symbol. */
  ghost predicate WritesTri(cfg: Config, u: User, i: nat, env: Env)
    requires At(cfg, i).Symbol?
  {
    var s := At(cfg, i);
    || env.vis(i) != 0
    || (!UserTriCounts(u, i, env) &&
        (|| DefaultTri(cfg, s.defaults, env) != 0
         || (ExprValue(cfg, s.weakRevDep, env) != 0 && ExprValue(cfg, s.directDep, env) != 0)))
    || ExprValue(cfg, s.revDep, env) != 0
  }

  /** `_write_to_conf` for a string, int or hex symbol. */
  ghost predicate WritesText(cfg: Config, i: nat, env: Env)
    requires At(cfg, i).Symbol?
  {
    env.vis(i) != 0 || ActiveDefault(cfg, At(cfg, i).defaults, 0, env).Some?
  }

  ghost predicate Writes(cfg: Config, u: User, i: nat, env: Env)
    requires At(cfg, i).Symbol?
  {
    match At(cfg, i).origType
    case Unknown => false
    case Bool => WritesTri(cfg, u, i, env)
    case Tristate => WritesTri(cfg, u, i, env)
    case _ => WritesText(cfg, i, env)
  }

  /** `config_string`, without the newline. */
  function ConfigLine(s: Item, val: string): string
    requires s.Symbol?
  {
    match s.origType
    case Str => PREFIX + s.name + "=" + "\"" + Escape(val) + "\""
    case Int => PREFIX + s.name + "=" + val
    case Hex => PREFIX + s.name + "=" + val
    case _ => if val == "n" then "# " + PREFIX + s.name + NOT_SET else PREFIX + s.name + "=" + val
  }

  /** What is left of a value on its line: outside quotes, trailing white space is lost. */
  function Stripped(t: Type, val: string): string { if IsNumber(t) then RStrip(val) else val }

  /** The lines for the symbols in `order`, from position `k` on. */
  ghost function ConfigLines(cfg: Config, u: User, env: Env, order: seq<nat>, k: nat): seq<string>
    requires forall i :: i in order ==> At(cfg, i).Symbol?
    decreases |order| - k
  {
    if k >= |order| then []
    else
      (if Writes(cfg, u, order[k], env) then [ConfigLine(At(cfg, order[k]), env.str(order[k]))] else [])
      + ConfigLines(cfg, u, env, order, k + 1)
  }

  // ---------------------------------------------------------------- reading lines

  ghost predicate Named(cfg: Config, i: nat, name: string) {
    i < |cfg.items| && cfg.items[i].Symbol? && cfg.items[i].defined && cfg.items[i].name == name
  }

  ghost function SymbolNamed(cfg: Config, name: string): (r: Option<nat>)
    ensures r.Some? ==> Named(cfg, r.value, name)
    ensures r.None? ==> forall i :: !Named(cfg, i, name)
  {
    if exists i :: Named(cfg, i, name) then
      var i :| Named(cfg, i, name);
      Some(i)
    else None
  }

  /** The value a right-hand side assigns to a symbol of the given type. */
  function AssignedText(t: Type, val: string): Option<Value> {
    if IsTriType(t) then
      if val != "" && (val[0] == 'y' || val[0] == 'n' || (t == Tristate && val[0] == 'm'))
      then Some(VText(val[..1])) else None
    else if t == Str then
      var s := Literal(val);
      if s.Some? then Some(VText(s.value)) else None
    else Some(VText(val))
  }

  /** The assignment a line of the file makes, if any. */
  ghost function LineAssigns(cfg: Config, raw: string): Option<(nat, Value)> {
    var line := RStrip(raw);
    var m := SetMatch(line);
    if m.Some? then
      var i := SymbolNamed(cfg, m.value.0);
      if i.None? then None
      else
        var v := AssignedText(At(cfg, i.value).origType, m.value.1);
        if v.Some? then Some((i.value, v.value)) else None
    else
      var n := UnsetMatch(line);
      if n.None? then None
      else
        var i := SymbolNamed(cfg, n.value);
        if i.Some? && IsTriType(At(cfg, i.value).origType) then Some((i.value, VText("n"))) else None
  }

  /** User values, and the symbols set so far. */
  datatype Loading = Loading(user: User, wasSet: set<nat>)

  ghost function LoadLine(cfg: Config, st: Loading, line: string): Loading {
    var a := LineAssigns(cfg, line);
    if a.None? then st
    else
      var (i, given) := a.value;
      var value := ConvertedFor(cfg, i, given);
      if SetSucceeds(cfg, st.user, i, value) then
        Loading(Assigned(cfg, st.user, i, value), st.wasSet + {i})
      else st
  }

  ghost function LoadLines(cfg: Config, st: Loading, lines: seq<string>): Loading
    decreases |lines|
  {
    if lines == [] then st else LoadLines(cfg, LoadLine(cfg, st, lines[0]), lines[1..])
  }

  /** The user values of the given symbols are removed. */
  function Cleared(u: User, items: set<nat>): User {
    User(u.tri - items, u.text - items, u.sel - items)
  }

  ghost function DefinedItems(cfg: Config): set<nat> {
    set i | 0 <= i < |cfg.items| && InGraph(cfg.items[i])
  }

  /** `_load_config` with replace: what the file did not set is unset. */
  ghost function LoadConfig(cfg: Config, u: User, lines: seq<string>): User {
    var st := LoadLines(cfg, Loading(u, {}), lines);
    Cleared(st.user, DefinedItems(cfg) - st.wasSet)
  }

  // ---------------------------------------------------------------- the supported configurations

  predicate GoodName(s: string) {
    s != "" && '=' !in s && ' ' !in s
  }

  /** No choices and no tristate symbols besides the constants n, m and y. */
  ghost predicate Plain(cfg: Config) {
    && (forall i :: 0 <= i < |cfg.items| ==>
          && cfg.items[i].Symbol? && cfg.items[i].choice.None?
          && (cfg.items[i].origType == Tristate ==> cfg.items[i].isConstant)
          && (cfg.items[i].defined ==> GoodName(cfg.items[i].name)))
    && (forall i, j :: 0 <= i < j < |cfg.items| && cfg.items[i].defined && cfg.items[j].defined
                       ==> cfg.items[i].name != cfg.items[j].name)
  }

  /** User values are of the right form for their symbols, as `set_value` ensures. */
  ghost predicate UserValid(cfg: Config, u: User) {
    && (forall i :: i in u.tri ==> 0 <= u.tri[i] <= 2 && (At(cfg, i).origType == Bool ==> u.tri[i] != 1))
    && (forall i :: i in u.text ==> IsValidFor(cfg, At(cfg, i).origType, VText(u.text[i])))
    && u.sel == map[]
  }

  // ---------------------------------------------------------------- values after reloading

  /** The value of symbol `i` can be assigned back as it is written. */
  ghost predicate Assignable(cfg: Config, u: User, i: nat, env: Env)
    requires At(cfg, i).Symbol?
  {
    && Writes(cfg, u, i, env)
    && (IsTriType(At(cfg, i).origType) || IsValidFor(cfg, At(cfg, i).origType, VText(env.str(i))))
  }

  /** `v` holds for every defined symbol what was written for it under `u`. */
  ghost predicate Reloaded(cfg: Config, u: User, env: Env, v: User) {
    forall i :: 0 <= i < |cfg.items| && cfg.items[i].Symbol? && cfg.items[i].defined ==> ReloadedAt(cfg, u, env, v, i)
  }

  ghost predicate ReloadedAt(cfg: Config, u: User, env: Env, v: User, i: nat)
    requires At(cfg, i).Symbol?
  {
    if IsTriType(At(cfg, i).origType) then
      if Assignable(cfg, u, i, env) then i in v.tri && v.tri[i] == env.tri(i) else i !in v.tri
    else
      if Assignable(cfg, u, i, env) then i in v.text && v.text[i] == Stripped(At(cfg, i).origType, env.str(i))
      else i !in v.text
  }

  predicate EndsTidy(s: string) { s == "" || !IsSpace(s[|s| - 1]) }

  predicate IsNumber(t: Type) { t == Int || t == Hex }

  /** A visible number that is read back ends without white space. */
  ghost predicate Survives(cfg: Config, u: User, env: Env, i: nat)
    requires At(cfg, i).Symbol?
  {
    IsNumber(At(cfg, i).origType) && env.vis(i) != 0 && Assignable(cfg, u, i, env) ==> EndsTidy(env.str(i))
  }

  ghost predicate AllSurvive(cfg: Config, u: User, env: Env) {
    forall i :: 0 <= i < |cfg.items| && cfg.items[i].Symbol? && cfg.items[i].defined ==> Survives(cfg, u, env, i)
  }

  /** A bool symbol's visibility is n or y. */
  lemma BoolVisibility(cfg: Config, i: nat, env: Env)
    requires At(cfg, i).Symbol? && At(cfg, i).origType == Bool && At(cfg, i).choice.None?
    requires 0 <= VisValue(cfg, i, env) <= 2
    ensures VisValue(cfg, i, env) == 0 || VisValue(cfg, i, env) == 2
  {
  }

  lemma TriReloads(cfg: Config, u: User, v: User, i: nat, env: Env)
    requires At(cfg, i).Symbol? && At(cfg, i).origType == Bool && !At(cfg, i).isConstant && At(cfg, i).choice.None?
    requires ReloadedAt(cfg, u, env, v, i)
    requires env.tri(i) == TriValue(cfg, u, i, env) && 0 <= env.tri(i) <= 2
    requires env.vis(i) == 0 || env.vis(i) == 2
    ensures TriValue(cfg, v, i, env) == env.tri(i)
  {
  }

  lemma StrReloads(cfg: Config, u: User, v: User, i: nat, env: Env)
    requires At(cfg, i).Symbol? && !IsTriType(At(cfg, i).origType)
    requires At(cfg, i).origType != Unknown ==> ReloadedAt(cfg, u, env, v, i) && Survives(cfg, u, env, i)
    requires i in u.text ==> IsValidFor(cfg, At(cfg, i).origType, VText(u.text[i]))
    requires env.str(i) == StrValue(cfg, u, i, env)
    ensures StrValue(cfg, v, i, env) == env.str(i)
  {
  }

  /** Whatever holds exactly the written values evaluates to the same configuration. */
  lemma {:induction false} ReloadedSame(cfg: Config, u: User, v: User, rank: Key -> nat, k: Key)
    requires Acyclic(cfg, rank) && Sane(cfg) && Plain(cfg)
    requires UserOk(cfg, u) && UserOk(cfg, v) && UserValid(cfg, u)
    requires Reloaded(cfg, u, Scratch(cfg, u, rank), v) && AllSurvive(cfg, u, Scratch(cfg, u, rank))
    ensures SameAt(Scratch(cfg, u, rank), Scratch(cfg, v, rank), k)
    decreases rank(k)
  {
    var env, env' := Scratch(cfg, u, rank), Scratch(cfg, v, rank);
    forall d | d in Reads(cfg, v, k, env) ensures SameAt(env, env', d) {
      ReadsArePossible(cfg, v, k, env);
      assert d in PossibleReads(cfg, k);
      ReloadedSame(cfg, u, v, rank, d);
    }
    FormulaCongruent(cfg, v, k, env, env');
    ScratchSolves(cfg, u, rank, k);
    ScratchSolves(cfg, v, rank, k);
    ScratchSolves(cfg, u, rank, KVis(k.i));
    ScratchRange(cfg, u, rank, KVis(k.i));
    ScratchRange(cfg, u, rank, KTri(k.i));
    ReloadedFormula(cfg, u, v, env, k);
  }

  lemma TriFixed(cfg: Config, u: User, v: User, i: nat, env: Env)
    requires !At(cfg, i).Symbol? || !IsTriType(At(cfg, i).origType) || At(cfg, i).isConstant
    ensures TriValue(cfg, u, i, env) == TriValue(cfg, v, i, env)
  {
  }

  lemma StrOfTri(cfg: Config, u: User, v: User, i: nat, env: Env)
    requires At(cfg, i).Symbol? && IsTriType(At(cfg, i).origType)
    ensures StrValue(cfg, u, i, env) == StrValue(cfg, v, i, env)
  {
  }

  lemma ChoiceFixed(cfg: Config, u: User, v: User, i: nat, env: Env)
    requires At(cfg, i).Symbol?
    ensures SelValue(cfg, u, i, env) == SelValue(cfg, v, i, env) &&
            ModeValue(cfg, u, i, env) == ModeValue(cfg, v, i, env)
  {
  }

  lemma ReloadedFormula(cfg: Config, u: User, v: User, env: Env, k: Key)
    requires Sane(cfg) && Plain(cfg) && UserValid(cfg, u) && Reloaded(cfg, u, env, v) && AllSurvive(cfg, u, env)
    requires SolvesAt(cfg, u, env, k) && SolvesAt(cfg, u, env, KVis(k.i))
    requires InRange(env, KVis(k.i)) && InRange(env, KTri(k.i))
    ensures SolvesAt(cfg, v, env, k)
  {
    hide TriValue, StrValue, VisValue, SelValue, ModeValue;
    var i := k.i;
    var s := At(cfg, i);
    if i < |cfg.items| { assert SaneItem(cfg, i); }
    if s.prompts == [] { NoPromptsNoVisibility(cfg, i, env); }
    if k.KVis? {
    } else if !s.defined {
      OnlyOwnUserCounts(cfg, u, v, k, env);
    } else {
      assert ReloadedAt(cfg, u, env, v, i) && Survives(cfg, u, env, i);
      match k {
        case KTri(_) =>
          if s.origType == Bool && !s.isConstant {
            BoolVisibility(cfg, i, env);
            TriReloads(cfg, u, v, i, env);
          } else {
            TriFixed(cfg, u, v, i, env);
          }
        case KStr(_) =>
          if IsTriType(s.origType) { StrOfTri(cfg, u, v, i, env); } else { StrReloads(cfg, u, v, i, env); }
        case KSel(_) => ChoiceFixed(cfg, u, v, i, env);
        case KMode(_) => ChoiceFixed(cfg, u, v, i, env);
      }
    }
  }

  // ---------------------------------------------------------------- reading back what was written

  predicate NoBreak(s: string) { '\n' !in s && '\r' !in s }

  /** The texts that survive on a line: no line breaks, and no trailing space outside quotes. */
  ghost predicate CleanValue(cfg: Config, i: nat, val: string)
    requires At(cfg, i).Symbol?
  {
    NoBreak(val) && (IsNumber(At(cfg, i).origType) ==> EndsTidy(val))
  }

  /** The value a symbol's line assigns. */
  function WrittenValue(t: Type, tri: int, str: string): Value {
    if IsTriType(t) then VTri(tri) else VText(Stripped(t, str))
  }

  lemma NameIsUnique(cfg: Config, i: nat)
    requires Plain(cfg) && i < |cfg.items| && cfg.items[i].Symbol? && cfg.items[i].defined
    ensures SymbolNamed(cfg, cfg.items[i].name) == Some(i)
  {
    assert Named(cfg, i, cfg.items[i].name);
    var j := SymbolNamed(cfg, cfg.items[i].name).value;
    assert Named(cfg, j, cfg.items[i].name);
  }

  /** Nothing of a line but white space at the end of a number is lost. */
  lemma LineEnd(s: Item, val: string)
    requires s.Symbol? && s.defined && GoodName(s.name)
    requires IsTriType(s.origType) ==> val == "n" || val == "y"
    requires s.origType != Unknown
    ensures RStrip(ConfigLine(s, val)) == ConfigLine(s, Stripped(s.origType, val))
  {
    if IsNumber(s.origType) { RStripBehind(PREFIX + s.name + "=", val); }
  }

  lemma {:induction false} RStripBehind(head: string, val: string)
    requires head != "" && !IsSpace(head[|head| - 1])
    ensures RStrip(head + val) == head + RStrip(val)
    decreases |val|
  {
    if val == "" {
      assert head + val == head;
    } else if IsSpace(val[|val| - 1]) {
      assert (head + val)[..|head + val| - 1] == head + val[..|val| - 1];
      RStripBehind(head, val[..|val| - 1]);
    }
  }

  lemma RStripSame(val: string)
    ensures RStrip(val) == val <==> EndsTidy(val)
  {
    if val != "" && IsSpace(val[|val| - 1]) { RStripShorter(val[..|val| - 1]); }
  }

  lemma {:induction false} RStripShorter(val: string)
    ensures |RStrip(val)| <= |val|
  {
    if val != "" && IsSpace(val[|val| - 1]) { RStripShorter(val[..|val| - 1]); }
  }

  /** A written line assigns the written value to its symbol. */
  lemma LineReads(cfg: Config, i: nat, tri: int, val: string)
    requires Plain(cfg) && i < |cfg.items| && cfg.items[i].Symbol? && cfg.items[i].defined
    requires At(cfg, i).origType != Unknown && At(cfg, i).origType != Tristate && NoBreak(val)
    requires IsTriType(At(cfg, i).origType) ==> val == TriName(tri) && (tri == 0 || tri == 2)
    ensures var a := LineAssigns(cfg, ConfigLine(At(cfg, i), val));
            && a.Some? && a.value.0 == i
            && ConvertedFor(cfg, i, a.value.1) == WrittenValue(At(cfg, i).origType, tri, val)
  {
    hide Plain, Escape, RStrip, SetMatch, UnsetMatch, Literal;
    var s := At(cfg, i);
    assert GoodName(s.name) by { PlainName(cfg, i); }
    LineEnd(s, val);
    NameIsUnique(cfg, i);
    if s.origType == Str {
      var q := "\"" + Escape(val) + "\"";
      assert ConfigLine(s, val) == PREFIX + s.name + "=" + q;
      SetMatchOf(s.name, q);
      LiteralRoundTrip(val);
    } else if s.origType == Bool && tri == 0 {
      UnsetMatchOf(s.name);
    } else {
      SetMatchOf(s.name, Stripped(s.origType, val));
      if s.origType == Bool { assert val[..1] == "y" && "y" in ["n", "m", "y"]; }
    }
  }

  lemma PlainName(cfg: Config, i: nat)
    requires Plain(cfg) && i < |cfg.items| && cfg.items[i].Symbol? && cfg.items[i].defined
    ensures GoodName(cfg.items[i].name)
  {
  }

  /** The first `k` symbols in `order` have been dealt with. */
  ghost predicate Progress(cfg: Config, u: User, env: Env, order: seq<nat>, st: Loading, k: nat)
    requires forall i :: i in order ==> At(cfg, i).Symbol?
  {
    && UserValid(cfg, st.user)
    && (forall m :: 0 <= m < |order| ==> (order[m] in st.wasSet <==> m < k && Assignable(cfg, u, order[m], env)))
    && (forall m :: 0 <= m < |order| && order[m] in st.wasSet ==>
          AlreadySet(st.user, order[m], WrittenValue(At(cfg, order[m]).origType, env.tri(order[m]), env.str(order[m]))))
  }

  predicate KeepsValid(cfg: Config, t: Type, val: string) {
    IsValidFor(cfg, t, VText(Stripped(t, val))) == IsValidFor(cfg, t, VText(val))
  }

  ghost predicate Distinct(order: seq<nat>) {
    forall i, j :: 0 <= i < j < |order| ==> order[i] != order[j]
  }

  /** Exactly the defined symbols, each once, in the order of the menu tree. */
  ghost predicate IsOrder(cfg: Config, order: seq<nat>) {
    && Distinct(order)
    && (forall i :: i in order <==> 0 <= i < |cfg.items| && cfg.items[i].Symbol? && cfg.items[i].defined)
  }

  /** The values to write are in range, fit on a line, and losing white space makes none of them invalid. */
  ghost predicate Writable(cfg: Config, env: Env) {
    forall i :: 0 <= i < |cfg.items| && cfg.items[i].Symbol? && cfg.items[i].defined ==>
      && NoBreak(env.str(i)) && KeepsValid(cfg, cfg.items[i].origType, env.str(i))
      && (cfg.items[i].origType == Bool ==> env.str(i) == TriName(env.tri(i)) && (env.tri(i) == 0 || env.tri(i) == 2))
  }

  /** What loading a written line does. */
  lemma LineEffect(cfg: Config, u: User, env: Env, st: Loading, i: nat)
    requires Plain(cfg) && Sane(cfg) && Writable(cfg, env) && UserValid(cfg, st.user)
    requires At(cfg, i).Symbol? && At(cfg, i).defined && Writes(cfg, u, i, env)
    ensures var value := WrittenValue(At(cfg, i).origType, env.tri(i), env.str(i));
            LoadLine(cfg, st, ConfigLine(At(cfg, i), env.str(i)))
            == if Assignable(cfg, u, i, env) then Loading(Assigned(cfg, st.user, i, value), st.wasSet + {i}) else st
  {
    hide LineAssigns, ConfigLine, WritesTri, WritesText;
    assert i < |cfg.items|;
    assert SaneItem(cfg, i);
    LineReads(cfg, i, env.tri(i), env.str(i));
  }

  lemma ProgressSteps(cfg: Config, u: User, env: Env, order: seq<nat>, st: Loading, k: nat, value: Value)
    requires forall i :: i in order ==> At(cfg, i).Symbol? && At(cfg, i).choice.None?
    requires Distinct(order) && k < |order| && Progress(cfg, u, env, order, st, k)
    requires value == WrittenValue(At(cfg, order[k]).origType, env.tri(order[k]), env.str(order[k]))
    requires Assignable(cfg, u, order[k], env) ==> UserValid(cfg, Assigned(cfg, st.user, order[k], value))
    ensures Progress(cfg, u, env, order, if Assignable(cfg, u, order[k], env)
                                         then Loading(Assigned(cfg, st.user, order[k], value), st.wasSet + {order[k]})
                                         else st, k + 1)
  {
  }

  lemma AssignedValid(cfg: Config, u: User, env: Env, before: User, i: nat)
    requires Plain(cfg) && Sane(cfg) && Writable(cfg, env) && UserValid(cfg, before)
    requires At(cfg, i).Symbol? && At(cfg, i).defined && Assignable(cfg, u, i, env)
    ensures UserValid(cfg, Assigned(cfg, before, i, WrittenValue(At(cfg, i).origType, env.tri(i), env.str(i))))
  {
    hide Writes;
    assert i < |cfg.items|;
    assert SaneItem(cfg, i);
  }

  lemma LoadOneLine(cfg: Config, u: User, env: Env, order: seq<nat>, st: Loading, k: nat)
    requires Plain(cfg) && Sane(cfg) && IsOrder(cfg, order) && Writable(cfg, env) && k < |order|
    requires Progress(cfg, u, env, order, st, k) && Writes(cfg, u, order[k], env)
    ensures Progress(cfg, u, env, order, LoadLine(cfg, st, ConfigLine(At(cfg, order[k]), env.str(order[k]))), k + 1)
  {
    hide LoadLine, ConfigLine, Writes, Sane, Writable, Assignable, UserValid;
    var i := order[k];
    assert i in order;
    LineEffect(cfg, u, env, st, i);
    if Assignable(cfg, u, i, env) { AssignedValid(cfg, u, env, st.user, i); }
    ProgressSteps(cfg, u, env, order, st, k, WrittenValue(At(cfg, i).origType, env.tri(i), env.str(i)));
  }

  lemma {:induction false} LoadWritten(cfg: Config, u: User, env: Env, order: seq<nat>, st: Loading, k: nat)
    requires Plain(cfg) && Sane(cfg) && IsOrder(cfg, order) && Writable(cfg, env) && k <= |order|
    requires Progress(cfg, u, env, order, st, k)
    ensures Progress(cfg, u, env, order, LoadLines(cfg, st, ConfigLines(cfg, u, env, order, k)), |order|)
    decreases |order| - k
  {
    hide Plain, Sane, Writable, Progress, Writes, ConfigLine, LoadLine;
    if k < |order| {
      var rest := ConfigLines(cfg, u, env, order, k + 1);
      assert order[k] in order;
      if Writes(cfg, u, order[k], env) {
        var line := ConfigLine(At(cfg, order[k]), env.str(order[k]));
        assert ([line] + rest)[1..] == rest;
        LoadOneLine(cfg, u, env, order, st, k);
        LoadWritten(cfg, u, env, order, LoadLine(cfg, st, line), k + 1);
      } else {
        assert [] + rest == rest;
        SkipOne(cfg, u, env, order, st, k);
        LoadWritten(cfg, u, env, order, st, k + 1);
      }
    }
  }

  lemma SkipOne(cfg: Config, u: User, env: Env, order: seq<nat>, st: Loading, k: nat)
    requires forall i :: i in order ==> At(cfg, i).Symbol?
    requires k < |order| && Progress(cfg, u, env, order, st, k) && !Writes(cfg, u, order[k], env)
    ensures Progress(cfg, u, env, order, st, k + 1)
  {
  }

  /** Loading the written lines, from any earlier state, leaves exactly the written values. */
  lemma LoadedIsReloaded(cfg: Config, u: User, env: Env, order: seq<nat>, before: User)
    requires Plain(cfg) && Sane(cfg) && IsOrder(cfg, order) && Writable(cfg, env) && UserValid(cfg, before)
    ensures var v := LoadConfig(cfg, before, ConfigLines(cfg, u, env, order, 0));
            Reloaded(cfg, u, env, v) && UserOk(cfg, v)
  {
    hide Plain, Sane, Writable, Writes, LoadLines, ConfigLines;
    var lines := ConfigLines(cfg, u, env, order, 0);
    LoadWritten(cfg, u, env, order, Loading(before, {}), 0);
    var st := LoadLines(cfg, Loading(before, {}), lines);
    var v := LoadConfig(cfg, before, lines);
    forall i | 0 <= i < |cfg.items| && cfg.items[i].Symbol? && cfg.items[i].defined
      ensures ReloadedAt(cfg, u, env, v, i)
    {
      var m :| 0 <= m < |order| && order[m] == i;
      assert i in st.wasSet <==> Assignable(cfg, u, i, env);
    }
  }

  // ---------------------------------------------------------------- the file

  /** The text of the file. */
  function Contents(lines: seq<string>): string {
    if lines == [] then "" else lines[0] + "\n" + Contents(lines[1..])
  }

  /** The lines of a text; `current` is the line being read. */
  function LinesOf(text: string, current: string): seq<string> {
    if text == "" then (if current == "" then [] else [current])
    else if text[0] == '\n' || text[0] == '\r' then [current] + LinesOf(text[1..], "")
    else LinesOf(text[1..], current + [text[0]])
  }

  lemma {:induction false} OneLine(line: string, rest: string, current: string)
    requires NoBreak(line)
    ensures LinesOf(line + "\n" + rest, current) == [current + line] + LinesOf(rest, "")
    decreases |line|
  {
    var text := line + "\n" + rest;
    if line == "" {
      assert text[1..] == rest && current + line == current;
    } else {
      assert text[1..] == line[1..] + "\n" + rest && text[0] == line[0];
      OneLine(line[1..], rest, current + [line[0]]);
      assert current + [line[0]] + line[1..] == current + line;
    }
  }

  lemma {:induction false} LinesRoundTrip(lines: seq<string>)
    requires forall k :: 0 <= k < |lines| ==> NoBreak(lines[k])
    ensures LinesOf(Contents(lines), "") == lines
  {
    if lines != [] {
      OneLine(lines[0], Contents(lines[1..]), "");
      LinesRoundTrip(lines[1..]);
      assert "" + lines[0] == lines[0];
    }
  }

  lemma {:induction false} NoBreakEscape(s: string)
    requires NoBreak(s)
    ensures NoBreak(Escape(s))
  {
    if s == "" {
    } else {
      EscapeStep(s);
      NoBreakEscape(s[1..]);
    }
  }

  lemma LineHasNoBreak(s: Item, val: string)
    requires s.Symbol? && NoBreak(s.name) && NoBreak(val)
    ensures NoBreak(ConfigLine(s, val))
  {
    NoBreakEscape(val);
    assert NoBreak(PREFIX) && NoBreak(NOT_SET);
  }

  lemma {:induction false} WrittenLinesHaveNoBreak(cfg: Config, u: User, env: Env, order: seq<nat>, k: nat)
    requires forall i :: i in order ==> At(cfg, i).Symbol? && NoBreak(At(cfg, i).name) && NoBreak(env.str(i))
    ensures forall m :: 0 <= m < |ConfigLines(cfg, u, env, order, k)| ==> NoBreak(ConfigLines(cfg, u, env, order, k)[m])
    decreases |order| - k
  {
    hide Writes, ConfigLine, NoBreak;
    if k < |order| {
      assert order[k] in order;
      LineHasNoBreak(At(cfg, order[k]), env.str(order[k]));
      WrittenLinesHaveNoBreak(cfg, u, env, order, k + 1);
    }
  }

  /** Int and hex values on a line end without white space; no text value breaks the line. */
  ghost predicate CleanConfig(cfg: Config, env: Env) {
    forall i :: 0 <= i < |cfg.items| && cfg.items[i].Symbol? && cfg.items[i].defined ==>
      NoBreak(cfg.items[i].name) && CleanValue(cfg, i, env.str(i))
  }

  lemma ScratchWritable(cfg: Config, u: User, rank: Key -> nat)
    requires Acyclic(cfg, rank) && Sane(cfg) && Plain(cfg) && UserOk(cfg, u) && UserValid(cfg, u)
    requires CleanConfig(cfg, Scratch(cfg, u, rank)) || (OneLiners(cfg, Scratch(cfg, u, rank)) && PythonNumbers(cfg))
    ensures Writable(cfg, Scratch(cfg, u, rank))
  {
    var env := Scratch(cfg, u, rank);
    forall i | 0 <= i < |cfg.items| && cfg.items[i].Symbol? && cfg.items[i].defined
      ensures NoBreak(env.str(i)) && KeepsValid(cfg, cfg.items[i].origType, env.str(i))
    {
      RStripSame(env.str(i));
    }
    forall i | 0 <= i < |cfg.items| && cfg.items[i].defined && cfg.items[i].Symbol? && cfg.items[i].origType == Bool
      ensures env.str(i) == TriName(env.tri(i)) && (env.tri(i) == 0 || env.tri(i) == 2)
    {
      ScratchSolves(cfg, u, rank, KStr(i));
      ScratchSolves(cfg, u, rank, KTri(i));
      ScratchRange(cfg, u, rank, KTri(i));
      assert SaneItem(cfg, i);
      BoolValue(cfg, u, i, env);
    }
  }

  lemma BoolValue(cfg: Config, u: User, i: nat, env: Env)
    requires At(cfg, i).Symbol? && At(cfg, i).origType == Bool && !At(cfg, i).isConstant && At(cfg, i).choice.None?
    ensures TriValue(cfg, u, i, env) != 1
  {
  }

  /**
    Writing a configuration and loading the file, with replace and from any
    earlier state, gives every attribute of every symbol the value it had.
   */
  lemma ConfigRoundTrip(cfg: Config, rank: Key -> nat, u: User, before: User, order: seq<nat>, k: Key)
    requires Acyclic(cfg, rank) && Sane(cfg) && Plain(cfg) && IsOrder(cfg, order)
    requires UserOk(cfg, u) && UserValid(cfg, u) && UserValid(cfg, before)
    requires CleanConfig(cfg, Scratch(cfg, u, rank))
    ensures var env := Scratch(cfg, u, rank);
            var file := Contents(ConfigLines(cfg, u, env, order, 0));
            var v := LoadConfig(cfg, before, LinesOf(file, ""));
            SameAt(env, Scratch(cfg, v, rank), k)
  {
    hide Plain, Sane, Writable, Writes, LoadLines, ConfigLines, LoadConfig, Scratch, UserValid;
    var env := Scratch(cfg, u, rank);
    var lines := ConfigLines(cfg, u, env, order, 0);
    forall i | i in order ensures NoBreak(At(cfg, i).name) && NoBreak(env.str(i)) { }
    WrittenLinesHaveNoBreak(cfg, u, env, order, 0);
    LinesRoundTrip(lines);
    ScratchWritable(cfg, u, rank);
    LoadedIsReloaded(cfg, u, env, order, before);
    ReloadedSame(cfg, u, LoadConfig(cfg, before, lines), rank, k);
  }

  // ---------------------------------------------------------------- exactly when

  /** The line of a number is read back as that number if and only if it ends without white space. */
  lemma NumberReadsBack(cfg: Config, i: nat, val: string)
    requires Plain(cfg) && i < |cfg.items| && cfg.items[i].Symbol? && cfg.items[i].defined
    requires IsNumber(At(cfg, i).origType) && NoBreak(val)
    ensures LineAssigns(cfg, ConfigLine(At(cfg, i), val)) == Some((i, VText(val))) <==> EndsTidy(val)
  {
    LineReads(cfg, i, 0, val);
    RStripSame(val);
  }

  /** A trailing blank is lost on the way. */
  lemma TrailingBlankIsLost(cfg: Config, i: nat)
    requires Plain(cfg) && i < |cfg.items| && cfg.items[i].Symbol? && cfg.items[i].defined && At(cfg, i).origType == Int
    ensures LineAssigns(cfg, ConfigLine(At(cfg, i), "1 ")) == Some((i, VText("1")))
  {
    LineReads(cfg, i, 0, "1 ");
    assert "1 "[..1] == "1";
  }

  /**
    What is known of Python's `int`, `str` and `hex`: numbers may be followed by
    white space, the empty text is no number, and printing leaves no white space.
   */
  ghost predicate PythonNumbers(cfg: Config) {
    && (forall t, s :: IsNumber(t) ==> cfg.parse(t, RStrip(s)) == cfg.parse(t, s))
    && (forall t :: cfg.parse(t, "").None?)
    && (forall t, n :: EndsTidy(cfg.format(t, n)))
  }

  /** No name and no value breaks its line. */
  ghost predicate OneLiners(cfg: Config, env: Env) {
    forall i :: 0 <= i < |cfg.items| && cfg.items[i].Symbol? && cfg.items[i].defined ==>
      NoBreak(cfg.items[i].name) && NoBreak(env.str(i))
  }

  lemma StrLosesBlank(cfg: Config, u: User, v: User, i: nat, env: Env)
    requires PythonNumbers(cfg) && At(cfg, i).Symbol? && ReloadedAt(cfg, u, env, v, i)
    requires !Survives(cfg, u, env, i) && env.str(i) == StrValue(cfg, u, i, env)
    ensures StrValue(cfg, v, i, env) != env.str(i)
  {
    hide Assignable, Writes, RStrip, ActiveRange, DefaultText;
    var t, val := At(cfg, i).origType, env.str(i);
    RStripSame(val);
    AssignableIsNumber(cfg, u, i, env);
    assert cfg.parse(t, RStrip(val)) == cfg.parse(t, val);
    assert RStrip(val) != "";
    assert UserNumberCounts(cfg, v, i, BoundsOf(cfg, At(cfg, i), env), env);
  }

  lemma AssignableIsNumber(cfg: Config, u: User, i: nat, env: Env)
    requires At(cfg, i).Symbol? && IsNumber(At(cfg, i).origType) && Assignable(cfg, u, i, env)
    ensures cfg.parse(At(cfg, i).origType, env.str(i)).Some?
  {
  }

  /**
    Writing and loading keeps every value if and only if no number that is
    visible and can be assigned ends in white space.
   */
  lemma RoundTripExact(cfg: Config, rank: Key -> nat, u: User, before: User, order: seq<nat>)
    requires Acyclic(cfg, rank) && Sane(cfg) && Plain(cfg) && IsOrder(cfg, order) && PythonNumbers(cfg)
    requires UserOk(cfg, u) && UserValid(cfg, u) && UserValid(cfg, before)
    requires OneLiners(cfg, Scratch(cfg, u, rank))
    ensures var env := Scratch(cfg, u, rank);
            var v := LoadConfig(cfg, before, LinesOf(Contents(ConfigLines(cfg, u, env, order, 0)), ""));
            (forall k :: SameAt(env, Scratch(cfg, v, rank), k)) <==> AllSurvive(cfg, u, env)
  {
    hide Plain, Sane, Writable, Writes, Assignable, LoadLines, ConfigLines, LoadConfig, Scratch, UserValid,
        PythonNumbers, SameAt;
    var env := Scratch(cfg, u, rank);
    var lines := ConfigLines(cfg, u, env, order, 0);
    forall i | i in order ensures NoBreak(At(cfg, i).name) && NoBreak(env.str(i)) { }
    WrittenLinesHaveNoBreak(cfg, u, env, order, 0);
    LinesRoundTrip(lines);
    ScratchWritable(cfg, u, rank);
    LoadedIsReloaded(cfg, u, env, order, before);
    var v := LoadConfig(cfg, before, lines);
    if AllSurvive(cfg, u, env) {
      forall k ensures SameAt(env, Scratch(cfg, v, rank), k) { ReloadedSame(cfg, u, v, rank, k); }
    } else if forall k :: SameAt(env, Scratch(cfg, v, rank), k) {
      var i :| 0 <= i < |cfg.items| && cfg.items[i].Symbol? && cfg.items[i].defined && !Survives(cfg, u, env, i);
      SameAnswers(cfg, u, v, rank, i);
      StrLosesBlank(cfg, u, v, i, env);
    }
  }

  /** If nothing changed, the text of `i` solves its equation under either user values. */
  lemma SameAnswers(cfg: Config, u: User, v: User, rank: Key -> nat, i: nat)
    requires Acyclic(cfg, rank) && UserOk(cfg, u) && UserOk(cfg, v)
    requires forall k :: SameAt(Scratch(cfg, u, rank), Scratch(cfg, v, rank), k)
    ensures var env := Scratch(cfg, u, rank); env.str(i) == StrValue(cfg, u, i, env) == StrValue(cfg, v, i, env)
  {
    hide Scratch, StrValue;
    var env, env' := Scratch(cfg, u, rank), Scratch(cfg, v, rank);
    ScratchSolves(cfg, u, rank, KStr(i));
    ScratchSolves(cfg, v, rank, KStr(i));
    FormulaCongruent(cfg, v, KStr(i), env, env');
    assert SameAt(env, env', KStr(i));
  }

  // ---------------------------------------------------------------- what lines look like

  /** A text as it stands between quotes: a backslash before every quote and backslash. */
  function Quoted(s: string): string {
    if s == "" then "" else (if s[0] == '\"' || s[0] == '\\' then ['\\', s[0]] else [s[0]]) + Quoted(s[1..])
  }

  lemma {:induction false} EscapeIsQuoted(s: string)
    ensures Escape(s) == Quoted(s)
  {
    if s != "" {
      EscapeStep(s);
      EscapeIsQuoted(s[1..]);
      assert "\\\"" == ['\\', '\"'] && "\\\\" == ['\\', '\\'];
    }
  }

  /** How each type of symbol is written. */
  lemma LineForms(s: Item, val: string)
    requires s.Symbol?
    ensures s.origType == Str ==> ConfigLine(s, val) == "CONFIG_" + s.name + "=" + "\"" + Quoted(val) + "\""
    ensures s.origType == Int || s.origType == Hex ==> ConfigLine(s, val) == "CONFIG_" + s.name + "=" + val
    ensures s.origType == Bool || s.origType == Tristate ==>
              ConfigLine(s, val) == if val == "n" then "# CONFIG_" + s.name + " is not set"
                                    else "CONFIG_" + s.name + "=" + val
  {
    EscapeIsQuoted(val);
    assert "# " + "CONFIG_" == "# CONFIG_";
    assert "# " + PREFIX + s.name + NOT_SET == "# CONFIG_" + s.name + " is not set";
  }

  /**
    A symbol is written exactly if it is visible or something pulls it up: so what
    is not written is n, or a text without a default.
   */
  lemma WrittenWhen(cfg: Config, u: User, env: Env, i: nat)
    requires Solution(cfg, u, env) && At(cfg, i).Symbol?
    ensures IsPlain(cfg, i) ==>
              (Writes(cfg, u, i, env) <==>
                 env.vis(i) != 0 || exists x :: x != 0 && Contributes(cfg, u, env, i, x))
    ensures IsPlain(cfg, i) && !Writes(cfg, u, i, env) ==> env.tri(i) == 0
    ensures At(cfg, i).origType in {Str, Int, Hex} ==>
              (Writes(cfg, u, i, env) <==>
                 env.vis(i) != 0 || exists k: nat :: InForce(cfg, At(cfg, i).defaults, env, k))
    ensures At(cfg, i).origType == Unknown ==> !Writes(cfg, u, i, env)
  {
    hide Solution;
    var s := At(cfg, i);
    InForceIsActive(cfg, s.defaults, env);
    if ActiveDefault(cfg, s.defaults, 0, env).Some? {
      assert InForce(cfg, s.defaults, env, ActiveDefault(cfg, s.defaults, 0, env).value);
    }
    if IsPlain(cfg, i) { PlainWrittenWhen(cfg, u, env, i); }
  }

  lemma PlainWrittenWhen(cfg: Config, u: User, env: Env, i: nat)
    requires Solution(cfg, u, env) && IsPlain(cfg, i)
    ensures WritesTri(cfg, u, i, env) <==>
              env.vis(i) != 0 || exists x :: x != 0 && Contributes(cfg, u, env, i, x)
    ensures !WritesTri(cfg, u, i, env) ==> env.tri(i) == 0
  {
    hide Solution;
    var s := At(cfg, i);
    PlainLaw(cfg, u, env, i);
    FloorsContribute(cfg, u, env, i);
    DefaultContributes(cfg, env, s.defaults);
    var v :| Strongest(cfg, u, env, i, v);
    if !UserCounts(u, env, i) && DefaultTri(cfg, s.defaults, env) != 0 {
      assert Contributes(cfg, u, env, i, DefaultTri(cfg, s.defaults, env));
    }
  }

  lemma DefaultContributes(cfg: Config, env: Env, ds: seq<Default>)
    ensures forall x :: FromDefault(cfg, env, ds, x) ==> x == DefaultTri(cfg, ds, env)
    ensures DefaultTri(cfg, ds, env) != 0 ==> FromDefault(cfg, env, ds, DefaultTri(cfg, ds, env))
  {
    InForceIsActive(cfg, ds, env);
    var d := ActiveDefault(cfg, ds, 0, env);
    if d.Some? { assert InForce(cfg, ds, env, d.value); }
  }

  /** Lines come in the order of the symbols, one for each that is written. */
  lemma {:induction false} WrittenInOrder(cfg: Config, u: User, env: Env, order: seq<nat>, more: seq<nat>, k: nat)
    requires forall i :: i in order + more ==> At(cfg, i).Symbol?
    requires k <= |order|
    ensures (forall i :: i in order ==> i in order + more) && (forall i :: i in more ==> i in order + more)
    ensures ConfigLines(cfg, u, env, order + more, k)
         == ConfigLines(cfg, u, env, order, k) + ConfigLines(cfg, u, env, more, 0)
    decreases |order + more| - k
  {
    hide Writes, ConfigLine;
    if k < |order| {
      WrittenInOrder(cfg, u, env, order, more, k + 1);
    } else {
      SameFrom(cfg, u, env, order, more, 0);
    }
  }

  lemma {:induction false} SameFrom(cfg: Config, u: User, env: Env, order: seq<nat>, more: seq<nat>, k: nat)
    requires forall i :: i in order + more ==> At(cfg, i).Symbol?
    requires k <= |more|
    ensures (forall i :: i in more ==> i in order + more)
    ensures ConfigLines(cfg, u, env, order + more, |order| + k) == ConfigLines(cfg, u, env, more, k)
    decreases |more| - k
  {
    hide Writes, ConfigLine;
    if k < |more| {
      assert (order + more)[|order| + k] == more[k];
      SameFrom(cfg, u, env, order, more, k + 1);
    }
  }

  // ---------------------------------------------------------------- what loading promises

  ghost predicate AssignsTo(cfg: Config, line: string, i: nat) {
    LineAssigns(cfg, line).Some? && LineAssigns(cfg, line).value.0 == i
  }

  lemma {:induction false} UntouchedByLines(cfg: Config, st: Loading, lines: seq<string>, i: nat)
    requires forall line :: line in lines ==> !AssignsTo(cfg, line, i)
    ensures var after := LoadLines(cfg, st, lines);
            && (i in after.wasSet <==> i in st.wasSet)
            && (i in after.user.tri <==> i in st.user.tri) && (i in after.user.text <==> i in st.user.text)
            && (i in st.user.tri ==> after.user.tri[i] == st.user.tri[i])
            && (i in st.user.text ==> after.user.text[i] == st.user.text[i])
    decreases |lines|
  {
    hide LineAssigns;
    if lines != [] {
      assert lines[0] in lines;
      UntouchedByLines(cfg, LoadLine(cfg, st, lines[0]), lines[1..], i);
    }
  }

  /** What the file does not mention is unset. */
  lemma UnmentionedIsUnset(cfg: Config, u: User, lines: seq<string>, i: nat)
    requires i < |cfg.items| && InGraph(cfg.items[i]) && forall line :: line in lines ==> !AssignsTo(cfg, line, i)
    ensures i !in LoadConfig(cfg, u, lines).tri && i !in LoadConfig(cfg, u, lines).text
  {
    hide LineAssigns, LoadLines;
    UntouchedByLines(cfg, Loading(u, {}), lines, i);
  }

  lemma {:induction false} LoadInTwo(cfg: Config, st: Loading, a: seq<string>, b: seq<string>)
    ensures LoadLines(cfg, st, a + b) == LoadLines(cfg, LoadLines(cfg, st, a), b)
    decreases |a|
  {
    hide LoadLine;
    if a == [] {
      assert a + b == b;
    } else {
      assert (a + b)[1..] == a[1..] + b;
      LoadInTwo(cfg, LoadLine(cfg, st, a[0]), a[1..], b);
    }
  }

  /** The last line that assigns a suitable value to a symbol decides. */
  lemma LastLineDecides(cfg: Config, u: User, before: seq<string>, line: string, after: seq<string>, i: nat)
    requires At(cfg, i).Symbol? && AssignsTo(cfg, line, i)
    requires Suits(cfg, At(cfg, i).origType, LineAssigns(cfg, line).value.1)
    requires forall other :: other in after ==> !AssignsTo(cfg, other, i)
    ensures var v, given := LoadConfig(cfg, u, before + [line] + after), LineAssigns(cfg, line).value.1;
            if IsTriType(At(cfg, i).origType) then i in v.tri && IsTriValue(given, v.tri[i])
            else given.VText? && i in v.text && v.text[i] == given.s
  {
    hide LineAssigns;
    var st := Loading(u, {});
    LoadInTwo(cfg, st, before + [line], after);
    LoadInTwo(cfg, st, before, [line]);
    var mid := LoadLines(cfg, st, before);
    assert [line][1..] == [];
    assert LoadLines(cfg, mid, [line]) == LoadLine(cfg, mid, line);
    UntouchedByLines(cfg, LoadLine(cfg, mid, line), after, i);
  }
}
