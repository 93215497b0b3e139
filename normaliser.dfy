/**
 * The value normaliser `applyDivider` (models/device.js:528-590): turns a raw
 * collected value into its display/storage form using a divider column that is
 * a plain number, a number with a one-letter suffix (`C`, `F`, `R`), or a
 * regular-expression directive `<number>r<pattern>`.
 *
 * `Mode` selects between the guard at line 570 as written (`!value`, which also
 * stops a numeric 0) and the evidently intended guard that stops only empty
 * values; the poll pass takes the mode from its `PassEnv`, so both behaviours
 * can be followed through a whole pass (see the README's Findings).
 */
module Normaliser {
  import opened Wrappers
  import opened Seqs
  import opened Js

  datatype Mode = AsWritten | Intended

  /** `isNaN(divider)`. */
  predicate DividerIsNaN(d: Divider, env: Builtins) {
    match d
    case DivNum(n) => n.NaN?
    case DivStr(s) => env.toNumber(s).NaN?
    case DivNull => false
    case DivUndefined => true
  }

  /** `!!divider`. */
  predicate DividerTruthy(d: Divider) {
    match d
    case DivNum(n) => !(n.NaN? || n == Finite(0.0))
    case DivStr(s) => s != ""
    case DivNull => false
    case DivUndefined => false
  }

  /** `divider + ''`. */
  function DividerText(d: Divider, env: Builtins): string {
    match d
    case DivNum(n) => NumberText(n, env)
    case DivStr(s) => s
    case DivNull => "null"
    case DivUndefined => "undefined"
  }

  /** `parseFloat(divider)`. */
  function DividerNumber(d: Divider, env: Builtins): Number {
    match d
    case DivNum(n) => n
    case DivStr(s) => env.parseFloat(s)
    case _ => NaN
  }

  /** `div == divider` for the number `div`: true when the divider is purely numeric. */
  predicate DividerEquals(div: Number, d: Divider, env: Builtins) {
    match d
    case DivNum(n) => NumEq(div, n)
    case DivStr(s) => NumEq(div, env.toNumber(s))
    case _ => false
  }

  /** A value the intended guard treats as "no value": empty text, null or undefined. */
  predicate IsEmptyValue(v: JsValue) {
    v.Null? || v.Undefined? || v == Str("") || v == Bool(false)
  }

  /** The guard of line 570: when it holds the value is returned as it stands. */
  predicate SkipsDivision(v: JsValue, d: Divider, env: Builtins, mode: Mode) {
    (if mode.AsWritten? then !Truthy(v) else IsEmptyValue(v))
    || IsNaN(v, env) || !DividerTruthy(d)
  }

  function DividerRank(d: Divider): nat {
    match d
    case DivStr(_) => 2
    case DivUndefined => 2
    case DivNum(n) => if n.NaN? then 1 else 0
    case DivNull => 0
  }

  function ValueRank(v: JsValue): nat {
    match v
    case Str(_) => 2
    case Undefined => 2
    case Num(n) => if n.NaN? then 1 else 0
    case _ => 0
  }

  /** The texts of NaN and undefined hold no comma, no regex marker `r` and no `ERR` prefix. */
  lemma NaNText()
    ensures Count("NaN", ',') == 0 && Count("undefined", ',') == 0
    ensures 'r' !in "NaN" && 'r' !in "undefined" && 'r' !in "null"
    ensures !StartsWith("NaN", "ERR") && !StartsWith("undefined", "ERR")
  {
    assert ',' !in "NaN" && ',' !in "undefined";
    CountSpec("NaN", ',');
    CountSpec("undefined", ',');
    assert "NaN"[..3][0] == 'N' && "undefined"[..3][0] == 'u' && "ERR"[0] == 'E';
  }

  /** Outcome of lines 529-547: a value returned as it is, a reformatted number to retry, or a value to go on with. */
  datatype Prepared = Final(result: JsValue) | Retry(number: Number) | Proceed(v: JsValue)

  /**
   * Lines 529-547: booleans and `ERR` texts are returned unchanged; a
   * non-numeric text with one comma and no period, or one period and some
   * commas, is reparsed; any other non-numeric value goes on as its text.
   */
  function Prepare(value: JsValue, env: Builtins): (p: Prepared)
    ensures p.Final? ==> p.result == value && (value.Bool? || value.Str?)
    ensures p.Retry? ==> value.Str?
    ensures p.Proceed? ==> !p.v.Bool? && !p.v.Undefined? && (p.v.Null? ==> value.Null?)
    ensures p.Proceed? && !IsNaN(value, env) ==> p.v == value
  {
    if value.Bool? then Final(value)
    else if !IsNaN(value, env) then Proceed(value)
    else
      NaNText();
      var text := ToText(value, env);
      var points, commas := Count(text, '.'), Count(text, ',');
      if StartsWith(text, "ERR") then Final(value)
      else if points == 0 && commas == 1 then Retry(env.parseFloat(ReplaceFirst(text, ',', ".")))
      else if points == 1 && commas > 0 then Retry(env.parseFloat(ReplaceFirst(text, ',', "")))
      else Proceed(Str(text))
  }

  /** Outcome of the regular-expression directive: a final value, or a captured group to normalise. */
  datatype RegexStep = Done(result: JsValue) | Again(group: string, divider: Divider)

  /**
   * The directive branch of lines 549-565 for a text value: no `r` keeps the
   * text, a bad pattern yields its message, no usable group yields '', and a
   * non-empty first group is normalised again with `parseFloat(divider)`.
   */
  function RegexDirectiveStep(v: JsValue, divider: Divider, env: Builtins): (step: RegexStep)
    ensures step.Done? ==> step.result.Str?
    ensures step.Again? ==> step.group != "" && step.divider.DivNum? && 'r' in DividerText(divider, env)
  {
    var directive := DividerText(divider, env);
    var pos := IndexOf(directive, 'r');
    if pos < 0 then Done(Str(ToText(v, env)))
    else
      NaNText();
      match env.regexMatch(directive[pos + 1..], ToText(v, env))
      case BadPattern(message) => Done(Str(message))
      case Matched(Some(group)) =>
        if group != "" then Again(group, DivNum(env.parseFloat(directive))) else Done(Str(""))
      case _ => Done(Str(""))
  }

  /**
   * The arithmetic of lines 574-589: divide by `parseFloat(divider)`, and when
   * the divider is not purely numeric convert by its last character.
   */
  function Scale(v: JsValue, divider: Divider, env: Builtins): (r: JsValue)
    ensures r.Num?
  {
    var div := DividerNumber(divider, env);
    var val := Div(ParseFloat(v, env), div);
    if DividerEquals(div, divider, env) then Num(val)
    else
      match divider
      case DivStr(s) =>
        if s == "" then Num(val)
        else
          var last := s[|s| - 1];
          if last == 'C' then Num(FahrenheitToCelsius(val))
          else if last == 'F' then Num(CelsiusToFahrenheit(val))
          else if last == 'R' then Num(ToFixed2(val))
          else Num(val)
      case _ => Num(val)
  }

  /** `applyDivider(value, divider)`. */
  function ApplyDivider(value: JsValue, divider: Divider, env: Builtins, mode: Mode): JsValue
    decreases DividerRank(divider), ValueRank(value)
  {
    match Prepare(value, env)
    case Final(result) => result
    case Retry(n) => ApplyDivider(Num(n), divider, env, mode)
    case Proceed(v) =>
      if IsNaN(v, env) && DividerIsNaN(divider, env) then
        match RegexDirectiveStep(v, divider, env)
        case Done(result) => result
        case Again(group, div) =>
          NaNText();
          ApplyDivider(Str(group), div, env, mode)
      else if SkipsDivision(v, divider, env, mode) then v
      else Scale(v, divider, env)
  }

  /** Booleans and `ERR` error texts are returned unchanged. */
  lemma KeepsBooleansAndErrors(value: JsValue, divider: Divider, env: Builtins, mode: Mode)
    requires value.Bool? || (value.Str? && IsNaN(value, env) && StartsWith(value.s, "ERR"))
    ensures ApplyDivider(value, divider, env, mode) == value
  {
  }

  /** A number is returned unchanged when there is no divider (null, undefined, '' or 0). */
  lemma NoDividerKeepsNumber(n: Number, d: Divider, env: Builtins, mode: Mode)
    requires !n.NaN? && !DividerTruthy(d)
    ensures ApplyDivider(Num(n), d, env, mode) == Num(n)
  {
  }

  /** A text with one comma and no period is read with the comma as decimal point. */
  lemma DecimalComma(s: string, d: Divider, env: Builtins, mode: Mode)
    requires IsNaN(Str(s), env) && !StartsWith(s, "ERR")
    requires Count(s, '.') == 0 && Count(s, ',') == 1
    ensures ApplyDivider(Str(s), d, env, mode)
         == ApplyDivider(Num(env.parseFloat(ReplaceFirst(s, ',', "."))), d, env, mode)
  {
  }

  /**
   * A text with one period and some commas is retried with a comma removed
   * (see `FirstCommaRemoved` for which one).
   */
  lemma ThousandsComma(s: string, d: Divider, env: Builtins, mode: Mode)
    requires IsNaN(Str(s), env) && !StartsWith(s, "ERR")
    requires Count(s, '.') == 1 && Count(s, ',') > 0
    ensures ApplyDivider(Str(s), d, env, mode)
         == ApplyDivider(Num(env.parseFloat(ReplaceFirst(s, ',', ""))), d, env, mode)
  {
  }

  /** `replace(',', '')` removes only the first comma: every further comma stays. */
  lemma FirstCommaRemoved(s: string)
    requires ',' in s
    ensures Count(ReplaceFirst(s, ',', ""), ',') == Count(s, ',') - 1
  {
    ReplaceFirstSpec(s, ',', "");
    assert Count("", ',') == 0;
  }

  /** A purely numeric divider divides: the quotient is returned as it is. */
  lemma NumericDivider(x: real, d: Divider, k: real, env: Builtins, mode: Mode)
    requires k != 0.0
    requires d == DivNum(Finite(k))
          || (d.DivStr? && d.s != "" && env.parseFloat(d.s) == Finite(k) && env.toNumber(d.s) == Finite(k))
    ensures ApplyDivider(Num(Finite(x)), d, env, mode) == Num(Finite(x / k))
  {
  }

  /**
   * A divider with a suffix (numeric prefix `k`, not itself a number): `C`
   * converts the quotient from Fahrenheit to Celsius, `F` from Celsius to
   * Fahrenheit, `R` rounds it to cents, any other suffix keeps the quotient.
   */
  lemma SuffixDivider(x: real, s: string, k: real, env: Builtins, mode: Mode)
    requires x != 0.0 && k != 0.0 && s != ""
    requires env.parseFloat(s) == Finite(k) && !NumEq(Finite(k), env.toNumber(s))
    ensures var r, q := ApplyDivider(Num(Finite(x)), DivStr(s), env, mode), Finite(x / k);
      && (s[|s| - 1] == 'C' ==> r == Num(Finite((x / k - 32.0) * 5.0 / 9.0)))
      && (s[|s| - 1] == 'F' ==> r == Num(Finite(x / k * 9.0 / 5.0 + 32.0)))
      && (s[|s| - 1] == 'R' ==> r == Num(ToFixed2(q)))
      && (s[|s| - 1] !in "CFR" ==> r == Num(q))
  {
  }

  /** With suffix `R` the result has whole cents and is within half a cent of the quotient. */
  lemma RoundedDivider(x: real, s: string, k: real, env: Builtins, mode: Mode)
    requires x != 0.0 && k != 0.0 && s != "" && s[|s| - 1] == 'R'
    requires env.parseFloat(s) == Finite(k) && !NumEq(Finite(k), env.toNumber(s))
    requires -1000000000000000000000.0 < x / k < 1000000000000000000000.0
    ensures var r := ApplyDivider(Num(Finite(x)), DivStr(s), env, mode);
      && r.Num? && r.n.Finite?
      && (r.n.x * 100.0).Floor as real == r.n.x * 100.0
      && -0.005 <= r.n.x - x / k <= 0.005
  {
    SuffixDivider(x, s, k, env, mode);
    RoundCentsSpec(x / k);
  }

  /**
   * A non-numeric text whose divider is a non-numeric directive is handed to
   * the directive step: its final value, or the captured group normalised again.
   */
  lemma TextUsesDirective(s: string, directive: string, env: Builtins, mode: Mode)
    requires IsNaN(Str(s), env) && !StartsWith(s, "ERR")
    requires !(Count(s, '.') == 0 && Count(s, ',') == 1) && !(Count(s, '.') == 1 && Count(s, ',') > 0)
    requires env.toNumber(directive).NaN?
    ensures var step := RegexDirectiveStep(Str(s), DivStr(directive), env);
      ApplyDivider(Str(s), DivStr(directive), env, mode)
        == if step.Done? then step.result else ApplyDivider(Str(step.group), step.divider, env, mode)
  {
  }

  /**
   * The outcomes of a text directive: without `r` the text comes back as it is;
   * otherwise a bad pattern gives its error message, no match or an empty first
   * group gives '', and a non-empty group is normalised again with the number
   * in front of `r` as its divider.
   */
  lemma DirectiveOutcomes(s: string, directive: string, env: Builtins, mode: Mode)
    requires IsNaN(Str(s), env) && !StartsWith(s, "ERR")
    requires !(Count(s, '.') == 0 && Count(s, ',') == 1) && !(Count(s, '.') == 1 && Count(s, ',') > 0)
    requires env.toNumber(directive).NaN?
    ensures 'r' !in directive ==> ApplyDivider(Str(s), DivStr(directive), env, mode) == Str(s)
    ensures 'r' in directive ==>
      var outcome := env.regexMatch(directive[IndexOf(directive, 'r') + 1..], s);
      var result := ApplyDivider(Str(s), DivStr(directive), env, mode);
      && (outcome.BadPattern? ==> result == Str(outcome.message))
      && (outcome.NoMatch? || outcome == Matched(None) || outcome == Matched(Some("")) ==> result == Str(""))
      && (outcome.Matched? && outcome.group1.Some? && outcome.group1.value != "" ==>
            result == ApplyDivider(Str(outcome.group1.value), DivNum(env.parseFloat(directive)), env, mode))
  {
    TextUsesDirective(s, directive, env, mode);
    assert ToText(Str(s), env) == s;
    assert DividerText(DivStr(directive), env) == directive;
  }

  /** Facts about a divider `<1><suffix>` such as "1C" or "1F". */
  predicate UnitDivider(s: string, suffix: char, env: Builtins) {
    s != "" && s[|s| - 1] == suffix && env.parseFloat(s) == Finite(1.0) && env.toNumber(s).NaN?
  }

  /**
   * Intended behaviour: converting to Celsius and back gives every finite
   * reading back, zero and 32 included.
   */
  lemma CelsiusRoundTrip(v: real, c: string, f: string, env: Builtins)
    requires UnitDivider(c, 'C', env) && UnitDivider(f, 'F', env)
    ensures ApplyDivider(ApplyDivider(Num(Finite(v)), DivStr(c), env, Intended), DivStr(f), env, Intended)
         == Num(Finite(v))
  {
    var celsius := ApplyDivider(Num(Finite(v)), DivStr(c), env, Intended);
    assert celsius == Num(FahrenheitToCelsius(Finite(v / 1.0)));
    ConversionsInverse(Finite(v));
  }

  /**
   * Intended behaviour: a number and a numeric text for it normalise alike
   * under any divider that is present.
   */
  lemma NumberAndTextAgree(x: real, t: string, d: Divider, env: Builtins)
    requires t != "" && env.toNumber(t) == Finite(x) && env.parseFloat(t) == Finite(x)
    requires DividerTruthy(d)
    ensures ApplyDivider(Str(t), d, env, Intended) == ApplyDivider(Num(Finite(x)), d, env, Intended)
  {
  }

  /**
   * As written, a reading of 0 is never converted: 0 with a Celsius divider
   * stays 0 while the text "0" becomes -160/9, and 32 F does not survive the
   * round trip through Celsius.
   */
  lemma ZeroSkipsConversion(z: string, c: string, f: string, env: Builtins)
    requires UnitDivider(c, 'C', env) && UnitDivider(f, 'F', env)
    requires z != "" && env.toNumber(z) == Finite(0.0) && env.parseFloat(z) == Finite(0.0)
    ensures ApplyDivider(Num(Finite(0.0)), DivStr(c), env, AsWritten) == Num(Finite(0.0))
    ensures ApplyDivider(Str(z), DivStr(c), env, AsWritten) == Num(Finite(-160.0 / 9.0))
    ensures ApplyDivider(ApplyDivider(Num(Finite(32.0)), DivStr(c), env, AsWritten), DivStr(f), env, AsWritten)
         == Num(Finite(0.0))
  {
    assert ApplyDivider(Num(Finite(32.0)), DivStr(c), env, AsWritten) == Num(Finite(0.0));
  }
}
