/** JSON texts (RFC 8259), as the trees of its grammar with all white space kept. */
module JsonText {
  import opened Wrappers

  /** One character of a string (section 7). */
  datatype StrChar = Unescaped(c: char) | Escaped(c: char) | Unicode(hex: string)

  /** A value (sections 3 to 7). */
  datatype Value =
    | Null | True | False
    | Number(minus: bool, whole: string, frac: string, exp: string)
    | String(chars: seq<StrChar>)
    | EmptyArray(ws: string) | Array(items: Items)
    | EmptyObject(ws: string) | Object(members: Members)

  datatype Items = Items(before: string, v: Value, after: string, rest: Option<Items>)

  datatype Members =
    Members(before: string, key: seq<StrChar>, colonBefore: string, colonAfter: string, v: Value,
            after: string, rest: Option<Members>)

  predicate IsWs(s: string) {
    forall c | c in s :: c == ' ' || c == '\t' || c == '\n' || c == '\r'
  }

  predicate IsDigits(s: string) {
    s != "" && forall c | c in s :: '0' <= c <= '9'
  }

  predicate IsHex(c: char) {
    '0' <= c <= '9' || 'a' <= c <= 'f' || 'A' <= c <= 'F'
  }

  predicate StrCharOk(x: StrChar) {
    match x
    case Unescaped(c) => c >= ' ' && c != '"' && c != '\\'
    case Escaped(c) => c in "\"\\/bfnrt"
    case Unicode(hex) => |hex| == 4 && forall c | c in hex :: IsHex(c)
  }

  predicate StrOk(chars: seq<StrChar>) {
    forall x | x in chars :: StrCharOk(x)
  }

  /** A number (section 6): the integer part, then perhaps a fraction, then perhaps an exponent. */
  predicate NumberOk(whole: string, frac: string, exp: string) {
    && (whole == "0" || (IsDigits(whole) && whole[0] != '0'))
    && (frac == "" || (frac[0] == '.' && IsDigits(frac[1..])))
    && (exp == "" || ((exp[0] == 'e' || exp[0] == 'E')
                      && (IsDigits(exp[1..])
                          || (1 < |exp| && (exp[1] == '+' || exp[1] == '-') && IsDigits(exp[2..])))))
  }

  predicate ValueOk(v: Value) {
    match v
    case Number(_, whole, frac, exp) => NumberOk(whole, frac, exp)
    case String(chars) => StrOk(chars)
    case EmptyArray(ws) => IsWs(ws)
    case Array(items) => ItemsOk(items)
    case EmptyObject(ws) => IsWs(ws)
    case Object(members) => MembersOk(members)
    case _ => true
  }

  predicate ItemsOk(it: Items) {
    IsWs(it.before) && ValueOk(it.v) && IsWs(it.after) && (it.rest.Some? ==> ItemsOk(it.rest.value))
  }

  predicate MembersOk(m: Members) {
    && IsWs(m.before) && StrOk(m.key) && IsWs(m.colonBefore) && IsWs(m.colonAfter) && ValueOk(m.v)
    && IsWs(m.after) && (m.rest.Some? ==> MembersOk(m.rest.value))
  }

  function StrCharText(x: StrChar): string {
    match x
    case Unescaped(c) => [c]
    case Escaped(c) => ['\\', c]
    case Unicode(hex) => "\\u" + hex
  }

  function CharsText(chars: seq<StrChar>): string {
    if chars == [] then "" else StrCharText(chars[0]) + CharsText(chars[1..])
  }

  function StrText(chars: seq<StrChar>): string {
    "\"" + CharsText(chars) + "\""
  }

  function Text(v: Value): string {
    match v
    case Null => "null"
    case True => "true"
    case False => "false"
    case Number(minus, whole, frac, exp) => (if minus then "-" else "") + whole + frac + exp
    case String(chars) => StrText(chars)
    case EmptyArray(ws) => "[" + ws + "]"
    case Array(items) => "[" + ItemsText(items) + "]"
    case EmptyObject(ws) => "{" + ws + "}"
    case Object(members) => "{" + MembersText(members) + "}"
  }

  function ItemsText(it: Items): string {
    it.before + Text(it.v) + it.after
    + if it.rest.None? then "" else "," + ItemsText(it.rest.value)
  }

  function MembersText(m: Members): string {
    m.before + StrText(m.key) + m.colonBefore + ":" + m.colonAfter + Text(m.v) + m.after
    + if m.rest.None? then "" else "," + MembersText(m.rest.value)
  }

  /** A JSON text (section 2): one value with white space around it. */
  ghost predicate IsJson(s: string) {
    exists before, v, after :: IsWs(before) && ValueOk(v) && IsWs(after) && s == before + Text(v) + after
  }

  predicate IsObject(v: Value) {
    v.EmptyObject? || v.Object?
  }
}
