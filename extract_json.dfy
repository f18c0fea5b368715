/** `_safe_extract_json`: the two greedy searches `\{[\s\S]*\}` and
    `\[[\s\S]*\]` stated over indices. A greedy search for `open ... close`
    starts at the first `open` and ends at the last `close`; it is not a
    balanced-bracket scan. */
module ExtractJson {
  import opened Schema

  /** Position of the first occurrence of `c` in `s`. */
  function FirstIndexOf(s: string, c: char): (r: Option<nat>)
    ensures r.Some? ==> r.value < |s| && s[r.value] == c && forall k :: 0 <= k < r.value ==> s[k] != c
    ensures r.None? ==> forall k :: 0 <= k < |s| ==> s[k] != c
  {
    if s == [] then None
    else if s[0] == c then Some(0)
    else match FirstIndexOf(s[1..], c)
      case None => None
      case Some(i) => Some(i + 1)
  }

  /** Position of the last occurrence of `c` in `s`. */
  function LastIndexOf(s: string, c: char): (r: Option<nat>)
    ensures r.Some? ==> r.value < |s| && s[r.value] == c && forall k :: r.value < k < |s| ==> s[k] != c
    ensures r.None? ==> forall k :: 0 <= k < |s| ==> s[k] != c
  {
    if s == [] then None
    else if s[|s| - 1] == c then Some(|s| - 1)
    else LastIndexOf(s[..|s| - 1], c)
  }

  /** The greedy match of `open [\s\S]* close`: from the first `open` to the
      last `close`, when the former comes before the latter. */
  function GreedyRegion(text: string, open: char, close: char): Option<string>
  {
    match (FirstIndexOf(text, open), LastIndexOf(text, close))
    case (Some(i), Some(j)) => if i < j then Some(text[i..j + 1]) else None
    case _ => None
  }

  /** Regular-expression reading: `text[i..j]` is a match of `open [\s\S]* close`. */
  ghost predicate IsMatch(text: string, open: char, close: char, i: int, j: int)
  {
    0 <= i && i + 2 <= j <= |text| && text[i] == open && text[j - 1] == close
  }

  /** Some `open` occurs before some `close`. */
  ghost predicate HasRegion(text: string, open: char, close: char)
  {
    exists i, j :: IsMatch(text, open, close, i, j)
  }

  /** The greedy region is exactly the leftmost-longest regex match: it exists
      iff some match does, it is a match, no match starts further left, and
      none starting at the same place is longer. */
  lemma GreedyRegionIsLeftmostLongest(text: string, open: char, close: char)
    ensures GreedyRegion(text, open, close).Some? <==> HasRegion(text, open, close)
    ensures GreedyRegion(text, open, close).Some? ==>
      exists i, j :: IsMatch(text, open, close, i, j)
        && GreedyRegion(text, open, close).value == text[i..j]
        && forall i', j' :: IsMatch(text, open, close, i', j') ==> i < i' || (i == i' && j' <= j)
  {
    var fi, lj := FirstIndexOf(text, open), LastIndexOf(text, close);
    if HasRegion(text, open, close) {
      var i', j' :| IsMatch(text, open, close, i', j');
      assert text[i'] == open && text[j' - 1] == close;
      assert fi.Some? && lj.Some?;
      assert fi.value <= i' < j' - 1 <= lj.value;
      var i, j := fi.value, lj.value + 1;
      assert IsMatch(text, open, close, i, j);
      forall i'', j'' | IsMatch(text, open, close, i'', j'')
        ensures i < i'' || (i == i'' && j'' <= j)
      {
        assert text[i''] == open && text[j'' - 1] == close;
      }
    }
    if GreedyRegion(text, open, close).Some? {
      assert IsMatch(text, open, close, fi.value, lj.value + 1);
    }
  }

  /** `_safe_extract_json`: the brace region if there is one, else the bracket
      region, else the ValueError. */
  function SafeExtractJson(text: string): (r: Result<string>)
    ensures r.Err? ==> r.error == NoJsonFound
    ensures GreedyRegion(text, '{', '}').Some? ==> r == Ok(GreedyRegion(text, '{', '}').value)
    ensures GreedyRegion(text, '{', '}').None? && GreedyRegion(text, '[', ']').Some? ==>
      r == Ok(GreedyRegion(text, '[', ']').value)
    ensures r.Err? <==> GreedyRegion(text, '{', '}').None? && GreedyRegion(text, '[', ']').None?
  {
    match GreedyRegion(text, '{', '}')
    case Some(s) => Ok(s)
    case None =>
      match GreedyRegion(text, '[', ']')
      case Some(s) => Ok(s)
      case None => Err(NoJsonFound)
  }

  /** What the extractor returns, in regex terms: it fails exactly when neither
      pattern matches; with a brace match it returns the substring from the
      first `{` to the last `}`; the bracket search is used only when there is
      no brace match, with the same first-to-last rule. */
  lemma SafeExtractJsonSpec(text: string)
    ensures SafeExtractJson(text).Err? <==> !HasRegion(text, '{', '}') && !HasRegion(text, '[', ']')
    ensures HasRegion(text, '{', '}') ==>
      exists i, j :: 0 <= i < j < |text| && SafeExtractJson(text) == Ok(text[i..j + 1])
        && text[i] == '{' && (forall k :: 0 <= k < i ==> text[k] != '{')
        && text[j] == '}' && (forall k :: j < k < |text| ==> text[k] != '}')
    ensures !HasRegion(text, '{', '}') && HasRegion(text, '[', ']') ==>
      exists i, j :: 0 <= i < j < |text| && SafeExtractJson(text) == Ok(text[i..j + 1])
        && text[i] == '[' && (forall k :: 0 <= k < i ==> text[k] != '[')
        && text[j] == ']' && (forall k :: j < k < |text| ==> text[k] != ']')
  {
    GreedyRegionIsLeftmostLongest(text, '{', '}');
    GreedyRegionIsLeftmostLongest(text, '[', ']');
    if HasRegion(text, '{', '}') {
      var i, j := FirstIndexOf(text, '{').value, LastIndexOf(text, '}').value;
      assert SafeExtractJson(text) == Ok(text[i..j + 1]);
    } else if HasRegion(text, '[', ']') {
      var i, j := FirstIndexOf(text, '[').value, LastIndexOf(text, ']').value;
      assert SafeExtractJson(text) == Ok(text[i..j + 1]);
    }
  }

  /** A text that is itself one region is its own greedy region. */
  lemma WholeTextRegion(s: string, open: char, close: char)
    requires |s| >= 2 && s[0] == open && s[|s| - 1] == close
    ensures GreedyRegion(s, open, close) == Some(s)
  {
    assert FirstIndexOf(s, open) == Some(0);
    assert LastIndexOf(s, close) == Some(|s| - 1);
    assert s[0..|s|] == s;
  }

  /** A substring of a text with no region has no region either. */
  lemma NoRegionInSubstring(text: string, open: char, close: char, i: int, j: int)
    requires 0 <= i <= j <= |text| && !HasRegion(text, open, close)
    ensures !HasRegion(text[i..j], open, close)
  {
    if HasRegion(text[i..j], open, close) {
      var a, b :| IsMatch(text[i..j], open, close, a, b);
      assert IsMatch(text, open, close, i + a, i + b);
    }
  }

  /** Extracting again from an extracted region returns the same region. */
  lemma SafeExtractJsonIdempotent(text: string)
    requires SafeExtractJson(text).Ok?
    ensures SafeExtractJson(SafeExtractJson(text).value) == SafeExtractJson(text)
  {
    var s := SafeExtractJson(text).value;
    if GreedyRegion(text, '{', '}').Some? {
      WholeTextRegion(s, '{', '}');
    } else {
      GreedyRegionIsLeftmostLongest(text, '{', '}');
      GreedyRegionIsLeftmostLongest(s, '{', '}');
      var i, j := FirstIndexOf(text, '[').value, LastIndexOf(text, ']').value;
      NoRegionInSubstring(text, '{', '}', i, j + 1);
      WholeTextRegion(s, '[', ']');
    }
  }
}
