/**
 * The `json_string!` procedural macro. Its input is a list of fields: `"key": value`
 * pairs and `if` / `if let` blocks of further fields. A fully static input expands
 * to one string literal (`static_object_str`); any other input expands to code that
 * appends to a buffer at run time (`gen_dynamic_fields`).
 *
 * The model gives the expansion its run-time meaning: the text that the generated
 * code appends. The Rust expressions that the expansion splices in (conditions,
 * `if let` scrutinees, interpolated variables, `@raw` expressions) are named by
 * strings and evaluated through an `Env`.
 */
module JsonMacro {
  import opened Strings
  import JsonWrite

  /** One field of a macro input. */
  datatype Field =
    | KeyValue(key: string, value: Value)
    | IfLet(pat: string, expr: string, fields: seq<Field>)
    | If(expr: string, fields: seq<Field>)

  /** A value in a macro input; literal numbers keep their source token text. */
  datatype Value =
    | LitStr(s: string)
    | LitBool(b: bool)
    | LitInt(token: string)
    | LitFloat(token: string)
    | Variable(expr: string)
    | Object(fields: seq<Field>)
    | Raw(expr: string)

  /** The run-time value of an interpolated expression, as `JsonValue` writes it. */
  datatype RuntimeValue = Text(s: string) | Flag(b: bool) | Integer(n: int)

  /**
   * The run-time meaning of the Rust expressions an expansion mentions: whether an
   * `if` condition holds, whether an `if let` pattern matches its scrutinee, what an
   * interpolated variable evaluates to, and the text of an `@raw` expression.
   */
  datatype Env = Env(
    holds: string -> bool,
    matches: (string, string) -> bool,
    lookup: string -> RuntimeValue,
    raw: string -> string)

  /** `JsonValue::write_json` for strings, booleans and integers. */
  function WriteJson(v: RuntimeValue): string {
    match v
    case Text(s) => "\"" + JsonWrite.Escape(s) + "\""
    case Flag(b) => if b then "true" else "false"
    case Integer(n) => JsonWrite.Decimal(n)
  }

  /** The escaped, quoted key and the colon that open a pair. */
  function KeyText(key: string): string {
    "\"" + JsonWrite.Escape(key) + "\":"
  }

  // ---------------------------------------------------------------------------
  // Escaping at expansion time

  /** `json_escape`: the macro's own copy of the runtime escaper, one character at a time. */
  method JsonEscape(s: string) returns (out: string)
    ensures out == JsonWrite.Escape(s)
  {
    out := "";
    for i := 0 to |s|
      invariant out == JsonWrite.Escape(s[..i])
    {
      var ch := s[i];
      ghost var before := out;
      if ch == '"' {
        out := out + "\\\"";
      } else if ch == '\\' {
        out := out + "\\\\";
      } else if ch == '\n' {
        out := out + "\\n";
      } else if ch == '\r' {
        out := out + "\\r";
      } else if ch == '\t' {
        out := out + "\\t";
      } else if ch < ' ' {
        out := out + "\\u" + JsonWrite.Hex4(ch as nat);
      } else {
        out := out + [ch];
      }
      assert out == before + JsonWrite.EscapeChar(ch);
      JsonWrite.EscapePrefixStep(s, i);
    }
    assert s[..|s|] == s;
  }

  // ---------------------------------------------------------------------------
  // Static inputs

  /** `is_all_static`: no conditional, variable or raw value at any depth. */
  predicate IsAllStatic(fs: seq<Field>)
    decreases fs
  {
    fs == [] || (IsFieldStatic(fs[0]) && IsAllStatic(fs[1..]))
  }

  predicate IsFieldStatic(f: Field)
    decreases f
  {
    match f
    case KeyValue(_, value) => IsValueStatic(value)
    case IfLet(_, _, _) => false
    case If(_, _) => false
  }

  /** `is_value_static`. */
  predicate IsValueStatic(v: Value)
    decreases v
  {
    match v
    case LitStr(_) => true
    case LitBool(_) => true
    case LitInt(_) => true
    case LitFloat(_) => true
    case Object(fs) => IsAllStatic(fs)
    case Variable(_) => false
    case Raw(_) => false
  }

  /** The number of conditionals, variables and raw values in a field list, at any depth. */
  function DynamicNodes(fs: seq<Field>): nat
    decreases fs
  {
    if fs == [] then 0 else FieldDynamicNodes(fs[0]) + DynamicNodes(fs[1..])
  }

  function FieldDynamicNodes(f: Field): nat
    decreases f
  {
    match f
    case KeyValue(_, value) => ValueDynamicNodes(value)
    case IfLet(_, _, inner) => 1 + DynamicNodes(inner)
    case If(_, inner) => 1 + DynamicNodes(inner)
  }

  function ValueDynamicNodes(v: Value): nat
    decreases v
  {
    match v
    case Variable(_) => 1
    case Raw(_) => 1
    case Object(fs) => DynamicNodes(fs)
    case _ => 0
  }

  /** A field list is static exactly when it holds no conditional, variable or raw value. */
  lemma {:induction false} StaticIffNoDynamicNodes(fs: seq<Field>)
    decreases fs
    ensures IsAllStatic(fs) <==> DynamicNodes(fs) == 0
  {
    if fs != [] {
      StaticIffNoDynamicNodes(fs[1..]);
      match fs[0]
      case KeyValue(_, value) => ValueStaticIffNoDynamicNodes(value);
      case IfLet(_, _, _) =>
      case If(_, _) =>
    }
  }

  lemma {:induction false} ValueStaticIffNoDynamicNodes(v: Value)
    decreases v
    ensures IsValueStatic(v) <==> ValueDynamicNodes(v) == 0
  {
    match v
    case Object(fs) => StaticIffNoDynamicNodes(fs);
    case _ =>
  }

  /** The `"key":value` texts of a static field list, in order. */
  function StaticParts(fs: seq<Field>): (r: seq<string>)
    requires IsAllStatic(fs)
    decreases fs, 0
    ensures |r| == |fs|
  {
    if fs == [] then []
    else
      assert IsFieldStatic(fs[0]) && fs[0].KeyValue?;
      [KeyText(fs[0].key) + StaticValueStr(fs[0].value)] + StaticParts(fs[1..])
  }

  /** `static_object_str`: the pairs joined by commas inside braces. */
  function StaticObjectStr(fs: seq<Field>): (r: string)
    requires IsAllStatic(fs)
    decreases fs, 1
    ensures |r| >= 2 && r[0] == '{' && r[|r| - 1] == '}'
  {
    "{" + Join(StaticParts(fs), ",") + "}"
  }

  /** `static_value_str`. */
  function StaticValueStr(v: Value): string
    requires IsValueStatic(v)
    decreases v, 0
  {
    match v
    case LitStr(s) => "\"" + JsonWrite.Escape(s) + "\""
    case LitBool(b) => if b then "true" else "false"
    case LitInt(token) => token
    case LitFloat(token) => token
    case Object(fs) => StaticObjectStr(fs)
    case _ => ""
  }

  // ---------------------------------------------------------------------------
  // Dynamic inputs, as the macro generates them

  /**
   * The text appended at run time by the code `gen_dynamic_fields(fs, first)`
   * generates, and the value it leaves in `first`. Whether a comma is written is
   * decided at expansion time from `first`; a conditional's comma is written
   * inside its block, before its own fields, which start a fresh comma list.
   */
  function GenFields(fs: seq<Field>, first: bool, env: Env): (r: (string, bool))
    decreases fs
    ensures r.1 <==> first && fs == []
  {
    if fs == [] then ("", first)
    else
      var (text, first') := GenField(fs[0], first, env);
      var (rest, last) := GenFields(fs[1..], first', env);
      (text + rest, last)
  }

  function GenField(f: Field, first: bool, env: Env): (r: (string, bool))
    decreases f
    ensures !r.1
  {
    match f
    case KeyValue(key, value) =>
      ((if first then "" else ",") + KeyText(key) + GenValue(value, env), false)
    case IfLet(pat, expr, inner) =>
      (if env.matches(pat, expr) then (if first then "" else ",") + GenFields(inner, true, env).0 else "", false)
    case If(expr, inner) =>
      (if env.holds(expr) then (if first then "" else ",") + GenFields(inner, true, env).0 else "", false)
  }

  /** `gen_value_write`: the text a value's generated code appends. */
  function GenValue(v: Value, env: Env): string
    decreases v
  {
    match v
    case LitStr(s) => "\"" + JsonWrite.Escape(s) + "\""
    case LitBool(b) => if b then "true" else "false"
    case LitInt(token) => token
    case LitFloat(token) => token
    case Variable(expr) => WriteJson(env.lookup(expr))
    case Object(fs) =>
      if IsAllStatic(fs) then StaticObjectStr(fs) else "{" + GenFields(fs, true, env).0 + "}"
    case Raw(expr) => env.raw(expr)
  }

  /** `json_string!`: the string the expansion evaluates to. */
  function Expand(fs: seq<Field>, env: Env): (r: string)
    ensures |r| >= 2 && r[0] == '{' && r[|r| - 1] == '}'
  {
    if IsAllStatic(fs) then StaticObjectStr(fs) else "{" + GenFields(fs, true, env).0 + "}"
  }

  /**
   * On a static field list the generated code would write exactly the static
   * pairs joined by commas: the static shortcut is only an optimisation.
   */
  lemma {:induction false} GenFieldsOfStatic(fs: seq<Field>, first: bool, env: Env)
    requires IsAllStatic(fs)
    decreases fs
    ensures GenFields(fs, first, env).0 == (if first || fs == [] then "" else ",") + Join(StaticParts(fs), ",")
  {
    if fs != [] {
      var c: string := if first then "" else ",";
      var p := KeyText(fs[0].key) + StaticValueStr(fs[0].value);
      var ps := StaticParts(fs[1..]);
      GenFieldsStaticHead(fs, first, env);
      GenFieldsOfStatic(fs[1..], false, env);
      assert StaticParts(fs) == [p] + ps;
      JoinAfterHead(c, p, ps);
    }
  }

  /** One static pair at the head of the list is written as its static text, after the comma decision. */
  lemma GenFieldsStaticHead(fs: seq<Field>, first: bool, env: Env)
    requires fs != [] && IsAllStatic(fs)
    ensures fs[0].KeyValue? && IsValueStatic(fs[0].value)
    ensures GenFields(fs, first, env).0 ==
      (if first then "" else ",") + (KeyText(fs[0].key) + StaticValueStr(fs[0].value)) + GenFields(fs[1..], false, env).0
  {
    var f := fs[0];
    assert IsFieldStatic(f);
    assert GenField(f, first, env).0 == (if first then "" else ",") + (KeyText(f.key) + StaticValueStr(f.value)) by {
      GenValueOfStatic(f.value, env);
    }
  }

  /** A head piece followed by the comma-led join of the rest is the join of all the pieces. */
  lemma JoinAfterHead(c: string, p: string, ps: seq<string>)
    ensures c + p + ((if ps == [] then "" else ",") + Join(ps, ",")) == c + Join([p] + ps, ",")
  {
    if ps == [] {
      assert Join([p] + ps, ",") == p;
    } else {
      JoinCons(p, ps, ",");
    }
  }

  lemma {:induction false} GenValueOfStatic(v: Value, env: Env)
    requires IsValueStatic(v)
    decreases v
    ensures GenValue(v, env) == StaticValueStr(v)
  {
  }

  /** Every input expands to what the dynamic code path would write, static or not. */
  lemma ExpandAgreesWithDynamic(fs: seq<Field>, env: Env)
    ensures Expand(fs, env) == "{" + GenFields(fs, true, env).0 + "}"
  {
    if IsAllStatic(fs) {
      GenFieldsOfStatic(fs, true, env);
    }
  }

  /**
   * The comma decision is taken at expansion time, so a leading conditional
   * whose condition is false still clears `first`, and the next pair is
   * written with a comma in front of it.
   */
  lemma FalseLeadingConditionalLeavesStrayComma(env: Env)
    requires !env.holds("c")
    ensures Expand([If("c", [KeyValue("a", LitBool(true))]), KeyValue("b", LitInt("1"))], env) == "{,\"b\":1}"
  {
    var fs := [If("c", [KeyValue("a", LitBool(true))]), KeyValue("b", LitInt("1"))];
    assert !IsFieldStatic(fs[0]);
    assert !IsAllStatic(fs);
    StrayCommaFields(env);
    assert "{" + ",\"b\":1" + "}" == "{,\"b\":1}";
  }

  lemma StrayCommaFields(env: Env)
    requires !env.holds("c")
    ensures GenFields([If("c", [KeyValue("a", LitBool(true))]), KeyValue("b", LitInt("1"))], true, env).0 == ",\"b\":1"
  {
    var b := KeyValue("b", LitInt("1"));
    var fs := [If("c", [KeyValue("a", LitBool(true))]), b];
    assert fs[1..] == [b];
    assert GenField(fs[0], true, env) == ("", false);
    PairAfterFirst(env);
    assert "" + ",\"b\":1" == ",\"b\":1";
  }

  /** The pair `"b": 1` written when another field came before it. */
  lemma PairAfterFirst(env: Env)
    ensures GenFields([KeyValue("b", LitInt("1"))], false, env) == (",\"b\":1", false)
  {
    var b := KeyValue("b", LitInt("1"));
    assert [b][1..] == [];
    assert KeyText("b") == "\"b\":" by {
      assert JsonWrite.Escape("b") == JsonWrite.EscapeChar('b') + JsonWrite.Escape("");
    }
    assert "," + "\"b\":" + "1" == ",\"b\":1";
    assert GenField(b, false, env) == (",\"b\":1", false);
    assert ",\"b\":1" + "" == ",\"b\":1";
  }

  /**
   * A true conditional writes its comma before it knows whether its inner
   * fields write anything, so one whose inner fields all drop out leaves a
   * comma before the closing brace.
   */
  lemma EmptyTrueConditionalLeavesTrailingComma(env: Env)
    requires env.holds("c") && !env.holds("d")
    ensures Expand([KeyValue("a", LitInt("1")), If("c", [If("d", [KeyValue("b", LitInt("2"))])])], env)
      == "{\"a\":1,}"
  {
    var fs := [KeyValue("a", LitInt("1")), If("c", [If("d", [KeyValue("b", LitInt("2"))])])];
    assert !IsFieldStatic(fs[1]);
    assert !IsAllStatic(fs);
    TrailingCommaFields(env);
    assert "{" + "\"a\":1," + "}" == "{\"a\":1,}";
  }

  lemma TrailingCommaFields(env: Env)
    requires env.holds("c") && !env.holds("d")
    ensures GenFields([KeyValue("a", LitInt("1")), If("c", [If("d", [KeyValue("b", LitInt("2"))])])], true, env).0
      == "\"a\":1,"
  {
    var cond := If("c", [If("d", [KeyValue("b", LitInt("2"))])]);
    var fs := [KeyValue("a", LitInt("1")), cond];
    assert fs[1..] == [cond];
    FirstPairA(env);
    EmptyConditionalAfterFirst(env);
    assert "\"a\":1" + "," == "\"a\":1,";
  }

  /** The pair `"a": 1` written first. */
  lemma FirstPairA(env: Env)
    ensures GenField(KeyValue("a", LitInt("1")), true, env) == ("\"a\":1", false)
  {
    assert KeyText("a") == "\"a\":" by {
      assert JsonWrite.Escape("a") == JsonWrite.EscapeChar('a') + JsonWrite.Escape("");
    }
    assert "" + "\"a\":" + "1" == "\"a\":1";
  }

  /** A true conditional whose only field is a false conditional writes just its comma. */
  lemma EmptyConditionalAfterFirst(env: Env)
    requires env.holds("c") && !env.holds("d")
    ensures GenFields([If("c", [If("d", [KeyValue("b", LitInt("2"))])])], false, env) == (",", false)
  {
    var inner := If("d", [KeyValue("b", LitInt("2"))]);
    var cond := If("c", [inner]);
    assert [cond][1..] == [] && [inner][1..] == [];
    assert GenField(inner, true, env) == ("", false);
    assert GenFields([inner], true, env).0 == "";
    assert "," + "" == ",";
    assert GenField(cond, false, env) == (",", false);
  }

  // ---------------------------------------------------------------------------
  // Dynamic inputs, with the comma decided at run time

  /**
   * The corrected expansion: `wrote` is a run-time flag that records whether a
   * pair has already been written into the current object, and a conditional's
   * fields continue the enclosing comma list.
   */
  function FixedGenFields(fs: seq<Field>, wrote: bool, env: Env): (string, bool)
    decreases fs
  {
    if fs == [] then ("", wrote)
    else
      var (text, wrote') := FixedGenField(fs[0], wrote, env);
      var (rest, last) := FixedGenFields(fs[1..], wrote', env);
      (text + rest, last)
  }

  function FixedGenField(f: Field, wrote: bool, env: Env): (string, bool)
    decreases f
  {
    match f
    case KeyValue(key, value) =>
      ((if wrote then "," else "") + KeyText(key) + FixedGenValue(value, env), true)
    case IfLet(pat, expr, inner) =>
      if env.matches(pat, expr) then FixedGenFields(inner, wrote, env) else ("", wrote)
    case If(expr, inner) =>
      if env.holds(expr) then FixedGenFields(inner, wrote, env) else ("", wrote)
  }

  function FixedGenValue(v: Value, env: Env): string
    decreases v
  {
    match v
    case Object(fs) =>
      if IsAllStatic(fs) then StaticObjectStr(fs) else "{" + FixedGenFields(fs, false, env).0 + "}"
    case _ => GenValue(v, env)
  }

  function FixedExpand(fs: seq<Field>, env: Env): string {
    if IsAllStatic(fs) then StaticObjectStr(fs) else "{" + FixedGenFields(fs, false, env).0 + "}"
  }

  /** The pairs present at run time: those outside conditionals and inside the ones that hold. */
  function PresentPairs(fs: seq<Field>, env: Env): seq<string>
    decreases fs
  {
    if fs == [] then [] else FieldPairs(fs[0], env) + PresentPairs(fs[1..], env)
  }

  function FieldPairs(f: Field, env: Env): seq<string>
    decreases f
  {
    match f
    case KeyValue(key, value) => [KeyText(key) + FixedGenValue(value, env)]
    case IfLet(pat, expr, inner) => if env.matches(pat, expr) then PresentPairs(inner, env) else []
    case If(expr, inner) => if env.holds(expr) then PresentPairs(inner, env) else []
  }

  /** Each pair preceded by a comma. */
  function Commas(pairs: seq<string>): string {
    if pairs == [] then "" else "," + pairs[0] + Commas(pairs[1..])
  }

  /** A comma list continued after `wrote` pairs have been written. */
  function Listed(pairs: seq<string>, wrote: bool): string {
    if wrote then Commas(pairs) else Join(pairs, ",")
  }

  lemma {:induction false} CommasAppend(a: seq<string>, b: seq<string>)
    decreases |a|
    ensures Commas(a + b) == Commas(a) + Commas(b)
  {
    if a != [] {
      assert (a + b)[0] == a[0];
      assert (a + b)[1..] == a[1..] + b;
      CommasAppend(a[1..], b);
      calc {
        Commas(a + b);
        "," + a[0] + Commas(a[1..] + b);
        "," + a[0] + (Commas(a[1..]) + Commas(b));
        ("," + a[0] + Commas(a[1..])) + Commas(b);
      }
    } else {
      assert a + b == b;
    }
  }

  lemma {:induction false} JoinIsCommas(p: string, ps: seq<string>)
    decreases |ps|
    ensures Join([p] + ps, ",") == p + Commas(ps)
  {
    if ps != [] {
      JoinCons(p, ps, ",");
      JoinIsCommas(ps[0], ps[1..]);
      assert [ps[0]] + ps[1..] == ps;
    }
  }

  lemma ListedAppend(a: seq<string>, b: seq<string>, wrote: bool)
    ensures Listed(a + b, wrote) == Listed(a, wrote) + Listed(b, wrote || a != [])
  {
    if wrote {
      CommasAppend(a, b);
    } else if a == [] {
      assert a + b == b;
    } else {
      var t := a[1..];
      assert a + b == [a[0]] + (t + b);
      assert a == [a[0]] + t;
      calc {
        Join(a + b, ",");
        { JoinIsCommas(a[0], t + b); }
        a[0] + Commas(t + b);
        { CommasAppend(t, b); }
        a[0] + (Commas(t) + Commas(b));
        (a[0] + Commas(t)) + Commas(b);
        { JoinIsCommas(a[0], t); }
        Join(a, ",") + Commas(b);
      }
    }
  }

  /**
   * The corrected code writes exactly the pairs present at run time, separated
   * by single commas, and reports whether the object now holds a pair.
   */
  lemma {:induction false} FixedGenFieldsListsPresentPairs(fs: seq<Field>, wrote: bool, env: Env)
    decreases fs
    ensures FixedGenFields(fs, wrote, env)
      == (Listed(PresentPairs(fs, env), wrote), wrote || PresentPairs(fs, env) != [])
  {
    if fs != [] {
      var own := FieldPairs(fs[0], env);
      var rest := PresentPairs(fs[1..], env);
      FixedGenFieldListsPairs(fs[0], wrote, env);
      FixedGenFieldsListsPresentPairs(fs[1..], wrote || own != [], env);
      ListedAppend(own, rest, wrote);
    }
  }

  lemma {:induction false} FixedGenFieldListsPairs(f: Field, wrote: bool, env: Env)
    decreases f
    ensures FixedGenField(f, wrote, env)
      == (Listed(FieldPairs(f, env), wrote), wrote || FieldPairs(f, env) != [])
  {
    match f
    case KeyValue(key, value) =>
      var p := KeyText(key) + FixedGenValue(value, env);
      assert FieldPairs(f, env) == [p];
      var c: string := if wrote then "," else "";
      assert c + KeyText(key) + FixedGenValue(value, env) == c + p;
      assert FixedGenField(f, wrote, env).0 == c + p;
      if wrote {
        assert [p][1..] == [];
        assert Commas([p]) == "," + p + Commas([]);
        assert Commas([]) == "";
        assert "," + p + "" == c + p;
        assert Listed([p], wrote) == c + p;
      } else {
        assert Join([p], ",") == p;
        assert Listed([p], wrote) == c + p;
      }
    case IfLet(pat, expr, inner) =>
      if env.matches(pat, expr) {
        FixedGenFieldsListsPresentPairs(inner, wrote, env);
      }
    case If(expr, inner) =>
      if env.holds(expr) {
        FixedGenFieldsListsPresentPairs(inner, wrote, env);
      }
  }

  /** The static pairs are the pairs present under any environment. */
  lemma {:induction false} StaticPartsArePresent(fs: seq<Field>, env: Env)
    requires IsAllStatic(fs)
    decreases fs
    ensures StaticParts(fs) == PresentPairs(fs, env)
  {
    if fs != [] {
      StaticValueIsFixed(fs[0].value, env);
      StaticPartsArePresent(fs[1..], env);
    }
  }

  lemma {:induction false} StaticValueIsFixed(v: Value, env: Env)
    requires IsValueStatic(v)
    decreases v
    ensures FixedGenValue(v, env) == StaticValueStr(v)
  {
  }

  /** The corrected expansion is a well-formed object of exactly the present pairs. */
  lemma FixedExpandIsObjectOfPresentPairs(fs: seq<Field>, env: Env)
    ensures FixedExpand(fs, env) == "{" + Join(PresentPairs(fs, env), ",") + "}"
  {
    if IsAllStatic(fs) {
      StaticPartsArePresent(fs, env);
    } else {
      FixedGenFieldsListsPresentPairs(fs, false, env);
    }
  }

  /** No conditional at any depth. */
  predicate NoConditionals(fs: seq<Field>)
    decreases fs
  {
    fs == [] || (fs[0].KeyValue? && ValueHasNoConditionals(fs[0].value) && NoConditionals(fs[1..]))
  }

  predicate ValueHasNoConditionals(v: Value)
    decreases v
  {
    v.Object? ==> NoConditionals(v.fields)
  }

  /** Without conditionals the macro as written and the corrected one write the same text. */
  lemma {:induction false} AsWrittenAgreesWithoutConditionals(fs: seq<Field>, first: bool, env: Env)
    requires NoConditionals(fs)
    decreases fs
    ensures GenFields(fs, first, env).0 == FixedGenFields(fs, !first, env).0
  {
    if fs != [] {
      ValueAgreesWithoutConditionals(fs[0].value, env);
      AsWrittenAgreesWithoutConditionals(fs[1..], false, env);
    }
  }

  lemma {:induction false} ValueAgreesWithoutConditionals(v: Value, env: Env)
    requires ValueHasNoConditionals(v)
    decreases v
    ensures GenValue(v, env) == FixedGenValue(v, env)
  {
    if v.Object? {
      AsWrittenAgreesWithoutConditionals(v.fields, true, env);
    }
  }
}
