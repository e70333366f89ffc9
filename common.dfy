/** Shared vocabulary of the item-sharing backend: optional values (Java's
    null), results carrying one of the service exceptions, and the few
    java.lang.String operations the services rely on. */
module Common {

  /** A Java reference that may be null: `None` stands for null. */
  datatype Option<+T> = None | Some(value: T)

  /** The exceptions the services throw, one constructor per exception class. */
  datatype Error =
    | EntityNotFound              // EntityNotFoundException
    | InvalidBookingDate          // InvalidBookingDateException
    | WrongDates                  // WrongDatesException
    | ItemIsNotAvailable          // ItemIsNotAvailableException
    | NotAvailableToBookOwnItems  // NotAvailableToBookOwnItemsException
    | IllegalViewAndUpdate        // IllegalViewAndUpdateException
    | UnsupportedStatus           // UnsupportedStatusException
    | NotUniqueEmail              // NotUniqueEmailException
    | NotOwner                    // NotOwnerException
    | NullPointer                 // an uncaught NullPointerException

  /** A value returned normally, or the exception thrown instead. */
  datatype Result<+T> = Ok(value: T) | Err(error: Error)

  /** The characters `Character.isWhitespace` accepts among ASCII and the
      Latin-1 block (Unicode space separators beyond those are not modelled). */
  predicate IsWhitespace(c: char)
  {
    c == ' ' || ('\t' <= c <= '\r') || ('\U{1C}' <= c <= '\U{1F}')
  }

  /** `String.isBlank`: empty, or whitespace only. */
  predicate IsBlank(s: string)
  {
    forall i :: 0 <= i < |s| ==> IsWhitespace(s[i])
  }

  /** `s != null && !s.isBlank()`: the test every partial update uses before
      it overwrites a stored field. */
  predicate HasText(s: Option<string>)
  {
    s.Some? && !IsBlank(s.value)
  }

  function LowerChar(c: char): (r: char)
    ensures 'A' <= c <= 'Z' ==> 'a' <= r <= 'z'
    ensures !('A' <= c <= 'Z') ==> r == c
  {
    if 'A' <= c <= 'Z' then (c as int + 32) as char else c
  }

  /** `String.toLowerCase`, restricted to ASCII letters. */
  function ToLower(s: string): (r: string)
    ensures |r| == |s|
    ensures forall i :: 0 <= i < |s| ==> r[i] == LowerChar(s[i])
  {
    seq(|s|, i requires 0 <= i < |s| => LowerChar(s[i]))
  }

  /** `needle` occurs in `haystack` starting at offset `k`. */
  predicate OccursAt(haystack: string, needle: string, k: int)
  {
    0 <= k && k + |needle| <= |haystack| && haystack[k..k + |needle|] == needle
  }

  /** `haystack.contains(needle)`: needle occurs at some offset. */
  predicate Contains(haystack: string, needle: string)
  {
    exists k :: 0 <= k <= |haystack| && OccursAt(haystack, needle, k)
  }

  /** The case-insensitive `contains` the item search uses. */
  predicate ContainsIgnoreCase(haystack: string, needle: string)
  {
    Contains(ToLower(haystack), ToLower(needle))
  }

  /** Lower-casing twice is lower-casing once. */
  lemma ToLowerIdempotent(s: string)
    ensures ToLower(ToLower(s)) == ToLower(s)
  {
  }

  /** Lower-casing commutes with taking a slice. */
  lemma ToLowerSlice(s: string, lo: int, hi: int)
    requires 0 <= lo <= hi <= |s|
    ensures ToLower(s[lo..hi]) == ToLower(s)[lo..hi]
  {
  }

  /** A text that occurs in the haystack as written is also found when case
      is ignored. */
  lemma OccurrenceIgnoringCase(haystack: string, needle: string, k: int)
    requires OccursAt(haystack, needle, k)
    ensures ContainsIgnoreCase(haystack, needle)
  {
    ToLowerSlice(haystack, k, k + |needle|);
    assert OccursAt(ToLower(haystack), ToLower(needle), k);
  }

  /** The empty text is contained in everything. */
  lemma EmptyIsContained(haystack: string)
    ensures ContainsIgnoreCase(haystack, "")
  {
    assert OccursAt(ToLower(haystack), ToLower(""), 0);
  }
}
