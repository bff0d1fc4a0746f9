/** Scalar fields of an already parsed JSON object, and the harness's typed readers. */
module Scalars {
  import opened Outcomes

  /** `Other` stands for arrays, objects and non-finite numbers. */
  datatype Json = Absent | Null | Bool(b: bool) | Int(n: int) | Real(r: real) | Text(s: string) | Other

  /** The code points that Python's `str.strip` removes. */
  predicate IsSpace(c: char) {
    var n := c as int;
    || 0x09 <= n <= 0x0d || 0x1c <= n <= 0x20 || n == 0x85 || n == 0xa0 || n == 0x1680
    || 0x2000 <= n <= 0x200a || n == 0x2028 || n == 0x2029 || n == 0x202f || n == 0x205f || n == 0x3000
  }

  predicate NonBlank(s: string) {
    exists i :: 0 <= i < |s| && !IsSpace(s[i])
  }

  function RequiredString(j: Json): Option<string> {
    if j.Text? && NonBlank(j.s) then Some(j.s) else None
  }

  function RequiredInt(j: Json): Option<int> {
    if j.Int? then Some(j.n) else None
  }

  function RequiredNat(j: Json): Option<nat> {
    if j.Int? && 0 <= j.n then Some(j.n) else None
  }

  function RequiredNonNegativeNumber(j: Json): Option<real> {
    match j
    case Int(n) => if 0 <= n then Some(n as real) else None
    case Real(r) => if 0.0 <= r then Some(r) else None
    case _ => None
  }

  /** Null and absent both read as `None`; a present string must not be blank. */
  function NullableString(j: Json): Option<Option<string>> {
    match j
    case Absent => Some(None)
    case Null => Some(None)
    case Text(s) => if NonBlank(s) then Some(Some(s)) else None
    case _ => None
  }

  /** The JSON form in which a nullable string is written back. */
  function NullableText(s: Option<string>): Json {
    match s
    case None => Null
    case Some(t) => Text(t)
  }

  lemma {:induction false} TextReadsBack(s: string)
    ensures RequiredString(Text(s)) == if NonBlank(s) then Some(s) else None
  {
  }

  lemma {:induction false} NullableReadsBack(s: Option<string>)
    ensures NullableString(NullableText(s)) == if s.Some? ==> NonBlank(s.value) then Some(s) else None
  {
  }
}
