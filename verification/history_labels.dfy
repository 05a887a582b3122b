/** The Analytics page's label formatter (App.jsx:404-408): an ISO timestamp
    label `date T time` is shortened to the first five characters of its time
    part (`HH:MM`); a label without a non-empty time part is kept whole. */
module HistoryLabels {
  import opened Maybe
  import opened Text

  /** `s.split(sep)[1]`: the text between the first and the second `sep` (or
      the end); `None` (undefined) when `sep` does not occur. */
  function SecondPiece(s: string, sep: char): (r: Option<string>)
    ensures r.None? <==> sep !in s
    ensures r.Some? ==> sep !in r.value
    ensures r.Some? ==>
      exists i :: 0 <= i < |s| && s[i] == sep && sep !in s[..i] &&
        i + 1 + |r.value| <= |s| && r.value == s[i + 1 .. i + 1 + |r.value|] &&
        (i + 1 + |r.value| == |s| || s[i + 1 + |r.value|] == sep)
  {
    match FirstIndexOf(s, sep, 0)
    case None => None
    case Some(i) =>
      assert sep !in s[..i] by {
        assert forall k :: 0 <= k < i ==> s[..i][k] == s[k];
      }
      match FirstIndexOf(s, sep, i + 1)
      case None =>
        assert s[i] == sep && s[i + 1 .. i + 1 + |s[i + 1..]|] == s[i + 1..];
        Some(s[i + 1..])
      case Some(j) =>
        assert s[i] == sep && s[i + 1 .. i + 1 + |s[i + 1..j]|] == s[i + 1..j];
        Some(s[i + 1..j])
  }

  /** `str.substring(0, 5)`. */
  function Prefix5(p: string): (r: string)
    ensures |r| == if |p| < 5 then |p| else 5
    ensures r == p[..|r|]
  {
    if |p| < 5 then p else p[..5]
  }

  /** `label.split('T')[1] ? label.split('T')[1].substring(0,5) : label`. */
  function FormatLabel(stamp: string): (r: string)
    ensures r == stamp || |r| <= 5
  {
    match SecondPiece(stamp, 'T')
    case Some(p) => if |p| > 0 then Prefix5(p) else stamp
    case None => stamp
  }

  /** A label with no `T` is shown unchanged. */
  lemma LabelWithoutSeparator(stamp: string)
    requires 'T' !in stamp
    ensures FormatLabel(stamp) == stamp
  {
  }

  /** For a label `date + "T" + time + rest`, where neither `date` nor `time`
      contains a `T` and `rest` is empty or starts with one, the display is
      the first five characters of `time`, or the whole label when `time` is
      empty. */
  lemma {:induction false} LabelSplitsAtFirstSeparator(date: string, time: string, rest: string)
    requires 'T' !in date && 'T' !in time
    requires rest == [] || rest[0] == 'T'
    ensures FormatLabel(date + "T" + time + rest) ==
      if |time| > 0 then Prefix5(time) else date + "T" + time + rest
  {
    var stamp := date + "T" + time + rest;
    var i := |date|;
    assert stamp[i] == 'T';
    var first := FirstIndexOf(stamp, 'T', 0);
    assert first == Some(i);
    var second := FirstIndexOf(stamp, 'T', i + 1);
    assert forall k :: i + 1 <= k < i + 1 + |time| ==> stamp[k] == time[k - i - 1];
    if rest == [] {
      assert second.None?;
      assert stamp[i + 1..] == time;
    } else {
      var j := i + 1 + |time|;
      assert stamp[j] == 'T';
      assert second == Some(j);
      assert stamp[i + 1..j] == time;
    }
  }

  /** An ISO timestamp label shows its hour and minute. */
  lemma IsoTimestampExample()
    ensures FormatLabel("2024-05-01T14:30:00") == "14:30"
  {
    var date, time := "2024-05-01", "14:30:00";
    assert date + "T" + time + "" == "2024-05-01T14:30:00";
    LabelSplitsAtFirstSeparator(date, time, "");
    assert Prefix5(time) == "14:30";
  }
}
