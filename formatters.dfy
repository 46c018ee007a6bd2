/** `truncate` of the dashboard's formatting utilities (web/src/utils/formatters.ts). */
module Formatters {
  import opened JsStrings

  const Ellipsis: string := "..."

  /**
   * `truncate(str, length)`: strings of at most `length` characters are kept;
   * longer ones are cut with `slice(0, length)` and an ellipsis appended.
   */
  function Truncate(str: string, length: int): (r: string)
    ensures |str| <= length ==> r == str
    ensures |str| > length ==> |r| >= 3 && r[..|r| - 3] <= str && r[|r| - 3..] == Ellipsis
  {
    if |str| <= length then str
    else
      var head := SlicePrefix(str, length);
      assert (head + Ellipsis)[..|head|] == head;
      head + Ellipsis
  }

  /** A cut keeps exactly the first `length` characters and is `length + 3` long. */
  lemma TruncateCut(str: string, length: nat)
    requires |str| > length
    ensures Truncate(str, length) == str[..length] + Ellipsis
    ensures |Truncate(str, length)| == length + 3
  {
  }

  /** The first `length` characters of the result are those of `str`. */
  lemma TruncateKeepsPrefix(str: string, length: nat)
    ensures Truncate(str, length)[..if length <= |str| then length else |str|]
         == str[..if length <= |str| then length else |str|]
  {
    if |str| > length {
      TruncateCut(str, length);
      assert (str[..length] + Ellipsis)[..length] == str[..length];
    }
  }

  /** For a non-negative length the result is never longer than `max(|str|, length + 3)`. */
  lemma TruncateBound(str: string, length: nat)
    ensures |Truncate(str, length)| <= if |str| > length + 3 then |str| else length + 3
  {
  }

  /** Truncating twice with the same non-negative length changes nothing more. */
  lemma TruncateIdempotent(str: string, length: nat)
    ensures Truncate(Truncate(str, length), length) == Truncate(str, length)
  {
    var once := Truncate(str, length);
    if |str| > length {
      TruncateCut(str, length);
      assert |once| == length + 3;
      TruncateCut(once, length);
      assert once[..length] == str[..length];
    }
  }

  /**
   * A negative length counts back from the end, as `slice` does: the result
   * is then always cut, and even the empty string gains an ellipsis.
   */
  lemma TruncateNegative(str: string, length: int)
    requires length < 0
    ensures Truncate(str, length)
         == str[..if |str| + length > 0 then |str| + length else 0] + Ellipsis
    ensures Truncate("", length) == Ellipsis
  {
  }

  /** With a negative length a second truncation cuts again, so idempotence needs `length >= 0`. */
  lemma TruncateNegativeNotIdempotent()
    ensures Truncate(Truncate("hello", -2), -2) != Truncate("hello", -2)
  {
    assert Truncate("hello", -2) == "hel...";
    assert |Truncate("hel...", -2)| == 7;
  }
}
