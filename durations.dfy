/** Durations as the browser scripts display them (`2h 30m`, `2h`, `45m`, `45 min`),
    and how such a text reads back as a number of minutes. */
module Durations {
  import opened Optional
  import opened Text

  /** A non-empty run of decimal digits, read as a number. */
  function Number(s: string): Option<nat> {
    if s != [] && AllDigits(s) then Some(DigitsValue(s)) else None
  }

  /** Reads a displayed duration back into minutes: `Hh`, `Hh Mm`, `Mm` or `M min`. */
  function ReadDuration(s: string): Option<nat> {
    if s == [] then None
    else if s[|s| - 1] == 'h' then
      var h := Number(s[..|s| - 1]);
      if h.Some? then Some(60 * h.value) else None
    else if s[|s| - 1] == 'm' then ParseMinutesPart(s[..|s| - 1])
    else if |s| >= 4 && s[|s| - 4..] == " min" then Number(s[..|s| - 4])
    else None
  }

  /** `M` or `Hh M`, the text before the final `m`. */
  function ParseMinutesPart(body: string): Option<nat> {
    var k := IndexOfChar(body, ' ');
    if k == |body| then Number(body)
    else if k >= 1 && body[k - 1] == 'h' then
      var h, m := Number(body[..k - 1]), Number(body[k + 1..]);
      if h.Some? && m.Some? then Some(60 * h.value + m.value) else None
    else None
  }

  lemma DigitsHaveNoSpace(s: string)
    requires AllDigits(s)
    ensures IndexOfChar(s, ' ') == |s|
  {
    assert forall i | 0 <= i < |s| :: s[i] != ' ' by {
      forall i | 0 <= i < |s| ensures s[i] != ' ' { assert IsDigit(s[i]); }
    }
    assert s[..|s|] == s;
    IndexOfCharAt(s, ' ', |s|);
  }

  lemma ParseMinutes(ms: string)
    requires ms != [] && AllDigits(ms)
    ensures ReadDuration(ms + "m") == Some(DigitsValue(ms))
  {
    assert (ms + "m")[..|ms|] == ms;
    DigitsHaveNoSpace(ms);
  }

  lemma ParseLongMinutes(ms: string)
    requires ms != [] && AllDigits(ms)
    ensures ReadDuration(ms + " min") == Some(DigitsValue(ms))
  {
    var s := ms + " min";
    assert s[|s| - 4..] == " min";
    assert s[..|s| - 4] == ms;
  }

  lemma ParseHours(hs: string)
    requires hs != [] && AllDigits(hs)
    ensures ReadDuration(hs + "h") == Some(60 * DigitsValue(hs))
  {
    assert (hs + "h")[..|hs|] == hs;
  }

  lemma MinutesUnit(body: string)
    ensures ReadDuration(body + "m") == ParseMinutesPart(body)
  {
    assert (body + "m")[..|body|] == body;
  }

  lemma MinutesSplit(body: string, k: nat)
    requires k < |body| && IndexOfChar(body, ' ') == k && k >= 1 && body[k - 1] == 'h'
    requires Number(body[..k - 1]).Some? && Number(body[k + 1..]).Some?
    ensures ParseMinutesPart(body) == Some(60 * Number(body[..k - 1]).value + Number(body[k + 1..]).value)
  {
  }

  lemma HoursSpaceAt(hs: string, ms: string)
    requires AllDigits(hs)
    ensures IndexOfChar(hs + "h " + ms, ' ') == |hs| + 1
  {
    var body := hs + "h " + ms;
    HoursNoSpace(hs);
    assert body[..|hs| + 1] == hs + "h";
    IndexOfCharAt(body, ' ', |hs| + 1);
  }

  lemma HoursMinutesParts(hs: string, ms: string)
    requires hs != [] && AllDigits(hs) && ms != [] && AllDigits(ms)
    ensures Number((hs + "h " + ms)[..|hs|]) == Some(DigitsValue(hs))
    ensures Number((hs + "h " + ms)[|hs| + 2..]) == Some(DigitsValue(ms))
  {
    var body := hs + "h " + ms;
    assert body[..|hs|] == hs;
    assert body[|hs| + 2..] == ms;
  }

  lemma HoursNoSpace(hs: string)
    requires AllDigits(hs)
    ensures ' ' !in hs + "h"
  {
    forall i | 0 <= i < |hs + "h"| ensures (hs + "h")[i] != ' ' {
      if i < |hs| { assert IsDigit(hs[i]); }
    }
  }

}
