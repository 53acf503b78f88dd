/** Task identifiers and the cast a request's `:id` path parameter goes
    through before the collection is queried. A well-formed identifier is 24
    hexadecimal digits of either case; its canonical spelling is lower case.
    Anything else fails the cast, which the handlers report as "not found". */
module ObjectIds {
  import opened Options
  import Text

  predicate IsHexDigit(c: char) {
    '0' <= c <= '9' || 'a' <= c <= 'f' || 'A' <= c <= 'F'
  }

  predicate IsLowerHexDigit(c: char) {
    '0' <= c <= '9' || 'a' <= c <= 'f'
  }

  const IdLength := 24

  /** A string the cast accepts. */
  predicate IsHexId(s: string) {
    |s| == IdLength && forall i :: 0 <= i < |s| ==> IsHexDigit(s[i])
  }

  /** The spelling under which a task is stored. */
  predicate IsCanonical(s: string) {
    |s| == IdLength && forall i :: 0 <= i < |s| ==> IsLowerHexDigit(s[i])
  }

  type TaskId = s: string | IsCanonical(s) witness "000000000000000000000000"

  /** Casts a path parameter to a task identifier; `None` is the cast error.
      A successful cast yields the identifier that equals `raw` ignoring case. */
  function Cast(raw: string): (r: Option<TaskId>)
    ensures r.Some? <==> IsHexId(raw)
    ensures r.Some? ==> Text.Fold(r.value) == Text.Fold(raw)
  {
    if IsHexId(raw) then
      var id: TaskId := Text.Fold(raw);
      Some(id)
    else
      None
  }

  /** A stored identifier, sent back as a path parameter, names itself. */
  lemma CastRoundTrip(id: TaskId)
    ensures Cast(id) == Some(id)
  {
    assert Text.Fold(id) == id;
  }

  /** Upper- and lower-case spellings of an identifier name the same task, and
      lower-casing never turns a malformed parameter into a well-formed one. */
  lemma CastIgnoresCase(raw: string)
    ensures Cast(Text.Fold(raw)) == Cast(raw)
  {
    var folded := Text.Fold(raw);
    if IsHexId(raw) {
      assert Text.Fold(folded) == folded;
    } else if |raw| == IdLength {
      var i :| 0 <= i < |raw| && !IsHexDigit(raw[i]);
      assert !IsHexDigit(folded[i]);
    }
  }
}
