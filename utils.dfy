/**
 * Attribute-name validation (sphinxcontrib/traceables/utils.py): the pattern `^[^\d\W]\w*\Z`
 * matched with Python 2's `re` on a byte string, where `\w` is `[A-Za-z0-9_]` and `\Z` is the very
 * end of the input.
 */
module Utils {

  /** `\w`: an ASCII letter, digit or underscore. */
  predicate IsWordChar(c: char)
  {
    'a' <= c <= 'z' || 'A' <= c <= 'Z' || '0' <= c <= '9' || c == '_'
  }

  /** `\d`. */
  predicate IsDigit(c: char)
  {
    '0' <= c <= '9'
  }

  /** `\w*\Z`: the rest of the input is word characters only. */
  predicate MatchesWordStar(s: string)
  {
    s == [] || (IsWordChar(s[0]) && MatchesWordStar(s[1..]))
  }

  /** `is_valid_traceable_attribute_name`: `[^\d\W]` on the first character, then `\w*\Z`. */
  function IsValidTraceableAttributeName(input: string): (r: bool)
    ensures r ==> input != [] && !IsDigit(input[0]) && IsWordChar(input[0])
  {
    if input != [] && IsWordChar(input[0]) && !IsDigit(input[0]) && MatchesWordStar(input[1..]) then true else false
  }

  lemma {:induction false} WordStarAll(s: string)
    ensures MatchesWordStar(s) <==> forall i :: 0 <= i < |s| ==> IsWordChar(s[i])
  {
    if s != [] {
      WordStarAll(s[1..]);
      assert forall i :: 1 <= i < |s| ==> s[1..][i - 1] == s[i];
    }
  }

  /** The accepted names are exactly the identifiers: a letter or underscore, then letters, digits or underscores. */
  lemma ValidNameIsIdentifier(input: string)
    ensures IsValidTraceableAttributeName(input) <==>
      && input != []
      && ('a' <= input[0] <= 'z' || 'A' <= input[0] <= 'Z' || input[0] == '_')
      && forall i :: 0 < i < |input| ==> IsWordChar(input[i])
  {
    if input != [] {
      WordStarAll(input[1..]);
      assert forall i :: 0 < i < |input| ==> input[1..][i - 1] == input[i];
    }
  }

  /** One character outside `\w` anywhere, such as '-' in "foo-bar", rejects the name. */
  lemma NonWordCharRejected(input: string, i: nat)
    requires i < |input| && !IsWordChar(input[i])
    ensures !IsValidTraceableAttributeName(input)
  {
    ValidNameIsIdentifier(input);
  }

  /** `\Z` (not `$`) means a trailing newline is not tolerated. */
  lemma TrailingNewlineRejected(input: string)
    ensures !IsValidTraceableAttributeName(input + "\n")
  {
    NonWordCharRejected(input + "\n", |input|);
  }

  lemma Examples()
    ensures !IsValidTraceableAttributeName("")
    ensures !IsValidTraceableAttributeName("1abc")
    ensures !IsValidTraceableAttributeName("foo-bar")
    ensures IsValidTraceableAttributeName("_color2")
  {
    NonWordCharRejected("foo-bar", 3);
    ValidNameIsIdentifier("_color2");
  }
}
