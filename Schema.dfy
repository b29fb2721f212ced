/** What the request schemas share: how a field is refused, a field that
    may be left out, the declared length bounds that run before a
    validator, and Python's `re.match` of a pattern anchored by `^` and `$`
    (where `$` also matches just before a final newline). */
module Schema {
  import opened Wrappers
  import opened Text

  /** Why a field is refused: a `min_length`/`max_length` bound, a `ge`
      bound, or the message of the `ValueError` a validator raises. */
  datatype Rejection =
    | TooShort(minLength: nat)
    | TooLong(maxLength: nat)
    | BelowMinimum(ge: real)
    | ValueError(message: string)

  /** A field that may be left out of the request body. */
  datatype Given<T> = Omitted | Given(value: T)

  /** A refusal of the named field, as listed in a validation error. */
  datatype FieldError = FieldError(field: string, rejection: Rejection)

  /** The declared `min_length`/`max_length` of a field, checked before its
      validator runs. */
  function Bounds(v: string, lo: nat, hi: nat): (r: Option<Rejection>)
    ensures r.None? <==> lo <= |v| <= hi
    ensures r.Some? ==> r.value == (if |v| < lo then TooShort(lo) else TooLong(hi))
  {
    if |v| < lo then Some(TooShort(lo)) else if |v| > hi then Some(TooLong(hi)) else None
  }

  /** The first `k` characters of `v` are a non-empty run of the class and
      `$` matches right after them. */
  predicate RunToEnd(v: string, inClass: char -> bool, k: int) {
    1 <= k <= |v| && (forall i :: 0 <= i < k ==> inClass(v[i]))
    && (k == |v| || (k == |v| - 1 && v[k] == '\n'))
  }

  /** `re.match(r'^[C]+$', v)` for a character class `C`: a non-empty run of
      class characters reaching either the end of `v` or a final newline. */
  predicate PlusToEnd(v: string, inClass: char -> bool) {
    exists k :: 1 <= k <= |v| && RunToEnd(v, inClass, k)
  }

  predicate AllIn(v: string, inClass: char -> bool) { forall i :: 0 <= i < |v| ==> inClass(v[i]) }

  /** The text `$` sees: `v` without one final newline. */
  function BeforeFinalNewline(v: string): (b: string)
    ensures b == v || (v == b + "\n")
  {
    if v != [] && v[|v| - 1] == '\n' then v[..|v| - 1] else v
  }

  /** For a class that excludes the newline, the pattern matches iff what
      precedes an optional final newline is a non-empty run of the class. */
  lemma PlusToEndWithoutNewline(v: string, inClass: char -> bool)
    requires !inClass('\n')
    ensures PlusToEnd(v, inClass) <==> (BeforeFinalNewline(v) != [] && AllIn(BeforeFinalNewline(v), inClass))
  {
    var b := BeforeFinalNewline(v);
    if b != [] && AllIn(b, inClass) {
      assert RunToEnd(v, inClass, |b|);
    }
    if PlusToEnd(v, inClass) {
      var k :| 1 <= k <= |v| && RunToEnd(v, inClass, k);
      if v[|v| - 1] == '\n' {
        assert k != |v| by { assert !inClass(v[|v| - 1]); }
        assert b == v[..k];
      } else {
        assert b == v[..k];
      }
      assert forall i :: 0 <= i < |b| ==> b[i] == v[i];
    }
  }

  /** For a class that contains the newline, the pattern matches iff `v` is
      a non-empty run of the class. */
  lemma PlusToEndWithNewline(v: string, inClass: char -> bool)
    requires inClass('\n')
    ensures PlusToEnd(v, inClass) <==> (v != [] && AllIn(v, inClass))
  {
    if v != [] && AllIn(v, inClass) {
      assert RunToEnd(v, inClass, |v|);
    }
    if PlusToEnd(v, inClass) {
      var k :| RunToEnd(v, inClass, k);
    }
  }
}
