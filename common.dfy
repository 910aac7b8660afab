/** Vocabulary shared by every module: Go strings, and the Option/Result
    wrappers that stand for Go's `(value, error)` returns. */
module Common {

  /** A Go `string` is a sequence of bytes and `len` counts bytes. Here each
      `char` of a `GoString` stands for one byte (its code is the byte value),
      so `|s|` is Go's `len(s)`. */
  type GoString = string

  datatype Option<+T> = None | Some(value: T)

  datatype Result<+T, +E> = Ok(value: T) | Err(error: E)

  /** The number a string of decimal digits spells, most significant
      digit first. */
  function DigitsValue(s: GoString): nat
    requires forall i | 0 <= i < |s| :: '0' <= s[i] <= '9'
  {
    if s == [] then 0
    else 10 * DigitsValue(s[..|s| - 1]) + (s[|s| - 1] as int - '0' as int)
  }

  /** The decimal rendering of `n`, as `fmt.Sprintf("%d", n)` writes it:
      digits with no leading zero that spell `n`. */
  function Decimal(n: nat): (s: GoString)
    ensures |s| > 0
    ensures forall i | 0 <= i < |s| :: '0' <= s[i] <= '9'
    ensures DigitsValue(s) == n
    ensures n > 0 ==> s[0] != '0'
    decreases n
  {
    if n < 10 then [('0' as int + n) as char]
    else
      var prefix := Decimal(n / 10);
      var s := prefix + [('0' as int + n % 10) as char];
      assert s[..|s| - 1] == prefix;
      s
  }
}
