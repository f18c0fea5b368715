/** The natural-language trip request that `generate_trip_plan` composes from
    its structured parameters before the model call. */
module Request {
  import opened Schema

  /** What stands in for an empty or missing preference list. */
  const NoPreferences: string := "tổng hợp"
  /** What stands in for a missing or empty departure date. */
  const UndeterminedDate: string := "chưa xác định"

  predicate IsDigit(c: char)
  {
    '0' <= c <= '9'
  }

  function DigitChar(d: nat): (c: char)
    requires d < 10
    ensures IsDigit(c)
  {
    ('0' as int + d) as char
  }

  /** Python's `str` of a non-negative integer: decimal, no leading zero. */
  function NatToString(n: nat): (r: string)
    ensures |r| >= 1 && forall k :: 0 <= k < |r| ==> IsDigit(r[k])
    ensures |r| > 1 ==> r[0] != '0'
    ensures r[0] == '0' ==> n == 0
  {
    if n < 10 then [DigitChar(n)] else NatToString(n / 10) + [DigitChar(n % 10)]
  }

  /** Python's `str` of an integer: a minus sign before the digits when negative. */
  function IntToString(n: int): string
  {
    if n < 0 then "-" + NatToString(-n) else NatToString(n)
  }

  /** Reading decimal digits back; the inverse used to state that rendering loses nothing. */
  function ParseNat(s: string): nat
    requires forall k :: 0 <= k < |s| ==> IsDigit(s[k])
  {
    if s == [] then 0 else ParseNat(s[..|s| - 1]) * 10 + DigitValue(s[|s| - 1])
  }

  function DigitValue(c: char): (d: nat)
    requires IsDigit(c)
    ensures d < 10 && DigitChar(d) == c
  {
    c as int - '0' as int
  }

  function ParseInt(s: string): int
  {
    if |s| > 0 && s[0] == '-' && forall k :: 1 <= k < |s| ==> IsDigit(s[k]) then 0 - ParseNat(s[1..]) as int
    else if forall k :: 0 <= k < |s| ==> IsDigit(s[k]) then ParseNat(s)
    else 0
  }

  lemma {:induction false} NatToStringRoundTrip(n: nat)
    ensures ParseNat(NatToString(n)) == n
  {
    if n >= 10 {
      NatToStringRoundTrip(n / 10);
      var s := NatToString(n);
      assert s[..|s| - 1] == NatToString(n / 10);
    }
  }

  /** The number in the request reads back as the number given. */
  lemma IntToStringRoundTrip(n: int)
    ensures ParseInt(IntToString(n)) == n
  {
    NatToStringRoundTrip(if n < 0 then -n else n);
    if n < 0 {
      assert IntToString(n)[1..] == NatToString(-n);
    }
  }

  /** `sep.join(parts)`. */
  function Join(parts: seq<string>, sep: string): string
  {
    if parts == [] then ""
    else if |parts| == 1 then parts[0]
    else Join(parts[..|parts| - 1], sep) + sep + parts[|parts| - 1]
  }

  /** `p` occurs in `s` at position `k`. */
  ghost predicate InfixAt(p: string, s: string, k: int)
  {
    0 <= k <= |s| - |p| && s[k..k + |p|] == p
  }

  ghost predicate IsInfix(p: string, s: string)
  {
    exists k :: InfixAt(p, s, k)
  }

  lemma InfixOfConcat(a: string, p: string, b: string)
    ensures IsInfix(p, a + p + b)
  {
    assert (a + p + b)[|a|..|a| + |p|] == p;
    assert InfixAt(p, a + p + b, |a|);
  }

  lemma InfixGrows(p: string, s: string, a: string, b: string)
    requires IsInfix(p, s)
    ensures IsInfix(p, a + s + b)
  {
    var k :| InfixAt(p, s, k);
    assert (a + s + b)[|a| + k..|a| + k + |p|] == p;
    assert InfixAt(p, a + s + b, |a| + k);
  }

  /** Every preference appears in the joined text, and the joined text is the
      parts and the separators and nothing else. */
  lemma {:induction false} JoinContainsParts(parts: seq<string>, sep: string)
    ensures forall k :: 0 <= k < |parts| ==> IsInfix(parts[k], Join(parts, sep))
    ensures |parts| > 0 ==>
      |Join(parts, sep)| == SumLengths(parts) + (|parts| - 1) * |sep|
  {
    if |parts| > 1 {
      var init := parts[..|parts| - 1];
      JoinContainsParts(init, sep);
      forall k | 0 <= k < |parts|
        ensures IsInfix(parts[k], Join(parts, sep))
      {
        if k < |init| {
          assert init[k] == parts[k];
          InfixGrows(parts[k], Join(init, sep), "", sep + parts[|parts| - 1]);
          assert "" + Join(init, sep) + (sep + parts[|parts| - 1]) == Join(parts, sep);
        } else {
          InfixOfConcat(Join(init, sep) + sep, parts[k], "");
          assert Join(init, sep) + sep + parts[k] + "" == Join(parts, sep);
        }
      }
      SumLengthsSnoc(init, parts[|parts| - 1]);
      assert init + [parts[|parts| - 1]] == parts;
    } else if |parts| == 1 {
      InfixOfConcat("", parts[0], "");
      assert "" + parts[0] + "" == parts[0];
    }
  }

  function SumLengths(parts: seq<string>): nat
  {
    if parts == [] then 0 else SumLengths(parts[..|parts| - 1]) + |parts[|parts| - 1]|
  }

  lemma SumLengthsSnoc(parts: seq<string>, last: string)
    ensures SumLengths(parts + [last]) == SumLengths(parts) + |last|
  {
    assert (parts + [last])[..|parts|] == parts;
  }

  /** `preferences = preferences or []` followed by the join or the fallback. */
  function PreferenceString(preferences: Option<seq<string>>): string
  {
    match preferences
    case Some(ps) => if ps != [] then Join(ps, ", ") else NoPreferences
    case None => NoPreferences
  }

  /** `start_date or 'chưa xác định'`: None and the empty string both fall back. */
  function DepartureDate(startDate: Option<string>): string
  {
    match startDate
    case Some(d) => if d != "" then d else UndeterminedDate
    case None => UndeterminedDate
  }

  /** The pieces of the two f-strings and the literal line of the user
      request, in order. */
  function RequestPieces(departure: string, destination: string, travelers: int, days: int, budget: int,
                         preferences: Option<seq<string>>, startDate: Option<string>): seq<string>
  {
    [ "Lên kế hoạch ", IntToString(days), " ngày cho ", IntToString(travelers), " người từ ",
      departure, " đến ", destination, ". ",
      "Ngân sách: ", IntToString(budget), " VN. Sở thích: ", PreferenceString(preferences), ". ",
      "Ngày khởi hành: ", DepartureDate(startDate), ".\n",
      "Bao gồm chi tiết chi phí từng hoạt động, phương tiện di chuyển và nơi ở." ]
  }

  /** The user request handed to the prompt template: the pieces, concatenated. */
  function UserRequest(departure: string, destination: string, travelers: int, days: int, budget: int,
                       preferences: Option<seq<string>>, startDate: Option<string>): string
  {
    Join(RequestPieces(departure, destination, travelers, days, budget, preferences, startDate), "")
  }

  /** Empty and missing preferences read the same; a non-empty list puts each
      preference in the text. A present non-empty date is used as given. */
  lemma PreferenceAndDateFallbacks(preferences: Option<seq<string>>, startDate: Option<string>)
    ensures preferences == None || preferences == Some([]) ==> PreferenceString(preferences) == NoPreferences
    ensures preferences.Some? && preferences.value != [] ==>
      forall k :: 0 <= k < |preferences.value| ==> IsInfix(preferences.value[k], PreferenceString(preferences))
    ensures startDate == None || startDate == Some("") ==> DepartureDate(startDate) == UndeterminedDate
    ensures startDate.Some? && startDate.value != "" ==> DepartureDate(startDate) == startDate.value
  {
    if preferences.Some? {
      JoinContainsParts(preferences.value, ", ");
    }
  }

  /** The request mentions the day count, the traveller count, the route, the
      budget, the preference text and the departure date or its fallback. */
  lemma UserRequestMentions(departure: string, destination: string, travelers: int, days: int, budget: int,
                            preferences: Option<seq<string>>, startDate: Option<string>)
    ensures var r := UserRequest(departure, destination, travelers, days, budget, preferences, startDate);
      && IsInfix(IntToString(days), r)
      && IsInfix(IntToString(travelers), r)
      && IsInfix(departure, r)
      && IsInfix(destination, r)
      && IsInfix(IntToString(budget), r)
      && IsInfix(PreferenceString(preferences), r)
      && IsInfix(DepartureDate(startDate), r)
  {
    var pieces := RequestPieces(departure, destination, travelers, days, budget, preferences, startDate);
    JoinContainsParts(pieces, "");
    assert pieces[1] == IntToString(days) && pieces[3] == IntToString(travelers);
    assert pieces[5] == departure && pieces[7] == destination && pieces[10] == IntToString(budget);
    assert pieces[12] == PreferenceString(preferences) && pieces[15] == DepartureDate(startDate);
  }
}
