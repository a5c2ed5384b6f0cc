/** The Python values that the queue stores and returns, the exceptions a
    store step can raise, and the three Python operations the list algorithm
    applies to stored values: truth testing (`if _head:`), tuple unpacking
    (`value, _next = ...`), integer arithmetic on the length counter, and
    `%s` formatting of a node label into a key. */
module Values {

  /** A stored or returned Python value. `Nil` is `None`; `Pair` is a
      2-tuple, the shape of every node `(message, next)`. */
  datatype Value =
    | Nil
    | Bool(b: bool)
    | Int(i: int)
    | Str(s: string)
    | Pair(fst: Value, snd: Value)

  /** The exceptions the modelled steps can raise. `Missing` is a read or a
      delete of a key the store does not hold (the spool raises IOError/OSError
      when the file is absent). */
  datatype Error =
    | Missing(key: string)
    | TypeError
    | ValueError
    | NotImplemented

  datatype Result<T> = Ok(value: T) | Err(error: Error)

  datatype Option<T> = None | Some(value: T)

  /** Python truth testing for the values above: None, False, 0 and the
      empty string are false, so an empty node label could never be
      followed. */
  predicate Truthy(v: Value)
    ensures v.Nil? ==> !Truthy(v)
    ensures v.Str? ==> (Truthy(v) <==> v.s != "")
    ensures v.Int? ==> (Truthy(v) <==> v.i != 0)
  {
    match v
    case Nil => false
    case Bool(b) => b
    case Int(i) => i != 0
    case Str(s) => s != ""
    case Pair(_, _) => true
  }

  /** `x, y = v`: a 2-tuple unpacks to its components, a string of exactly
      two characters to its characters; any other string has the wrong
      length (ValueError) and a non-sequence cannot be unpacked (TypeError). */
  function Unpack(v: Value): (r: Result<(Value, Value)>)
    ensures r.Ok? <==> v.Pair? || (v.Str? && |v.s| == 2)
    ensures v.Pair? ==> r == Ok((v.fst, v.snd))
    ensures v.Str? && |v.s| == 2 ==> r == Ok((Str([v.s[0]]), Str([v.s[1]])))
    ensures r.Err? && v.Str? ==> r.error == ValueError
    ensures r.Err? && !v.Str? ==> r.error == TypeError
  {
    match v
    case Pair(a, b) => Ok((a, b))
    case Str(s) => if |s| == 2 then Ok((Str([s[0]]), Str([s[1]]))) else Err(ValueError)
    case _ => Err(TypeError)
  }

  /** `v + d` for an integer `d`: defined on integers and on booleans (a
      Python bool is an int), a TypeError on anything else. */
  function Add(v: Value, d: int): (r: Result<Value>)
    ensures r.Ok? <==> v.Int? || v.Bool?
    ensures v.Int? ==> r == Ok(Int(v.i + d))
    ensures v.Bool? ==> r == Ok(Int((if v.b then 1 else 0) + d))
    ensures r.Err? ==> r.error == TypeError
  {
    match v
    case Int(i) => Ok(Int(i + d))
    case Bool(b) => Ok(Int((if b then 1 else 0) + d))
    case _ => Err(TypeError)
  }

  /** `str(v)`, as `'%s' % v` inserts it into a key: a string as itself,
      None as "None", an integer in decimal, a tuple in parentheses. */
  function Text(v: Value): (r: string)
    ensures v.Str? ==> r == v.s
    ensures v.Nil? ==> r == "None"
    ensures v.Int? ==> r == Decimal(v.i) && ParseDecimal(r) == v.i
    ensures v.Pair? ==> |r| >= 2 && r[0] == '(' && r[|r| - 1] == ')'
    decreases v, 0
  {
    match v
    case Nil => "None"
    case Bool(b) => if b then "True" else "False"
    case Int(i) => Decimal(i)
    case Str(s) => s
    case Pair(a, b) => "(" + Item(a) + ", " + Item(b) + ")"
  }

  /** A tuple component as `str` of a tuple shows it: a string between
      single quotes, anything else as `str` shows it. */
  function Item(v: Value): (r: string)
    ensures v.Str? ==> |r| == |v.s| + 2 && r[0] == '\'' && r[|r| - 1] == '\'' && r[1..|r| - 1] == v.s
    ensures !v.Str? ==> r == Text(v)
    decreases v, 1
  {
    if v.Str? then "'" + v.s + "'" else Text(v)
  }

  /** `str(i)` of an integer: a minus sign exactly for a negative one, then
      the decimal digits of its magnitude without leading zeros. Reading it
      back gives `i`. */
  function Decimal(i: int): (r: string)
    ensures |r| > 0
    ensures r[0] == '-' <==> i < 0
    ensures var first := if i < 0 then 1 else 0;
      |r| > first && (forall k :: first <= k < |r| ==> IsDigit(r[k])) && (r[first] == '0' ==> r == "0")
    ensures ParseDecimal(r) == i
  {
    if i < 0 then
      var digits := Digits(-i);
      assert ("-" + digits)[1..] == digits;
      "-" + digits
    else Digits(i)
  }

  /** The decimal digits of `n`, most significant first, without leading
      zeros. Reading them back gives `n`. */
  function Digits(n: nat): (r: string)
    ensures |r| > 0 && (forall k :: 0 <= k < |r| ==> IsDigit(r[k]))
    ensures r[0] == '0' ==> r == "0"
    ensures Parse(r) == n
  {
    var d := ('0' as int + n % 10) as char;
    if n < 10 then [d]
    else
      var prefix := Digits(n / 10);
      assert (prefix + [d])[..|prefix|] == prefix;
      prefix + [d]
  }

  predicate IsDigit(c: char) {
    '0' <= c <= '9'
  }

  /** The reference reading of a digit string, least significant digit
      last. */
  function Parse(s: string): nat
    decreases |s|
  {
    if s == [] then 0
    else
      var c := s[|s| - 1];
      Parse(s[..|s| - 1]) * 10 + (if IsDigit(c) then c as int - '0' as int else 0)
  }

  function ParseDecimal(s: string): int {
    if |s| > 0 && s[0] == '-' then 0 - Parse(s[1..]) else Parse(s)
  }
}
