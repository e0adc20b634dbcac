/** Hand-written matchers for the few regular-expression shapes that VoiceRoute uses
    to pull places, transport words and times out of an utterance. Each matcher tries
    the alternatives in the order a backtracking ECMAScript engine does: leftmost
    start first, then alternatives left to right, greedy runs longest first, lazy
    runs shortest first. Next to each matcher a declarative predicate says what a
    match is, and the lemmas tie the two together. */
module Patterns {
  import opened Optional
  import opened Text

  // ------------------------------------------------------------------ gaps

  /** The separator between a keyword and what follows it. `Spaces` is `\s+`.
      `BackslashEss` is what `\\s+` inside a regular-expression literal means: one
      backslash, then one or more letters `s`. */
  datatype Gap = Spaces | BackslashEss

  /** The index after the run of character `ch` that starts at `i`. */
  function RunEnd(s: string, i: nat, ch: char): (k: nat)
    requires i <= |s|
    ensures i <= k <= |s|
    ensures forall m | i <= m < k :: s[m] == ch
    ensures k < |s| ==> s[k] != ch
    decreases |s| - i
  {
    if i < |s| && s[i] == ch then RunEnd(s, i + 1, ch) else i
  }

  function GapMin(g: Gap): nat {
    match g
    case Spaces => 1
    case BackslashEss => 2
  }

  /** The length of the longest gap at `i`; 0 when there is none. */
  function GapMax(g: Gap, s: string, i: nat): (n: nat)
    requires i <= |s|
    ensures i + n <= |s|
    ensures n == 0 || n >= GapMin(g)
  {
    match g
    case Spaces => SkipSpaces(s, i) - i
    case BackslashEss =>
      if i < |s| && s[i] == '\\' && RunEnd(s, i + 1, 's') > i + 1 then RunEnd(s, i + 1, 's') - i else 0
  }

  /** `s[i..i + k]` is one match of the gap. */
  ghost predicate GapSpec(g: Gap, s: string, i: nat, k: nat) {
    i + k <= |s| &&
    match g
    case Spaces => k >= 1 && forall m | i <= m < i + k :: IsSpace(s[m])
    case BackslashEss => k >= 2 && s[i] == '\\' && forall m | i + 1 <= m < i + k :: s[m] == 's'
  }

  /** The gap lengths at `i` are exactly those from `GapMin` to `GapMax`. */
  lemma GapBounds(g: Gap, s: string, i: nat, k: nat)
    requires i <= |s|
    ensures GapSpec(g, s, i, k) <==> GapMin(g) <= k <= GapMax(g, s, i)
  {
    match g
    case Spaces =>
    case BackslashEss =>
  }

  // ------------------------------------------------------- capture patterns

  /** The character class of the captured group: `[a-zA-Z\s]` on the server and the
      search page, `[a-zA-Z\\s]` (letters and the backslash) in the voice chat. */
  datatype CharClass = LettersSpaces | LettersBackslash

  predicate InClass(cls: CharClass, ch: char) {
    match cls
    case LettersSpaces => IsAsciiLetter(ch) || IsSpace(ch)
    case LettersBackslash => IsAsciiLetter(ch) || ch == '\\'
  }

  predicate ClassRun(cls: CharClass, s: string, c: nat, e: nat)
    requires c <= e <= |s|
  {
    forall m | c <= m < e :: InClass(cls, s[m])
  }

  /** One alternative of the keyword group in front of the capture: a word, or two
      words with a gap between them (`leaving\\s+from`). */
  datatype Lead = Word(w: string) | Phrase(first: string, second: string)

  /** One alternative of the group after the capture. */
  datatype Suffix =
    | GapThen(w: string)   // the gap, then a word: `\s+to`
    | OneSpace             // `\s`
    | Literal(t: string)   // a fixed text: `\\s` is a backslash and one `s`
    | BackslashAny         // `\\.`: a backslash and any character but a line terminator
    | AtEnd                // `$`

  /** `(?:lead1|lead2|...)GAP([CLASS]+?)(?:suffix1|suffix2|...)`. */
  datatype CapturePattern = CapturePattern(leads: seq<Lead>, gap: Gap, cls: CharClass, suffixes: seq<Suffix>)

  /** `w` follows a gap of length `k` at `e`. */
  predicate WordAfterGap(s: string, e: nat, k: nat, w: string) {
    StartsAt(s, e + k, w)
  }

  predicate SuffixAt(g: Gap, x: Suffix, s: string, e: nat)
    requires e <= |s|
  {
    match x
    case GapThen(w) => exists k | GapMin(g) <= k <= GapMax(g, s, e) :: WordAfterGap(s, e, k, w)
    case OneSpace => e < |s| && IsSpace(s[e])
    case Literal(t) => StartsAt(s, e, t)
    case BackslashAny => e + 1 < |s| && s[e] == '\\' && !IsLineTerminator(s[e + 1])
    case AtEnd => e == |s|
  }

  predicate AnySuffixAt(P: CapturePattern, s: string, e: nat)
    requires e <= |s|
  {
    exists k | 0 <= k < |P.suffixes| :: SuffixAt(P.gap, P.suffixes[k], s, e)
  }

  /** A lead alternative that starts at `p` can end at `j`. */
  ghost predicate LeadMatch(g: Gap, lead: Lead, s: string, p: nat, j: nat) {
    match lead
    case Word(w) => StartsAt(s, p, w) && j == p + |w|
    case Phrase(a, b) =>
      StartsAt(s, p, a) && exists k: nat | p + |a| + k <= j :: PhraseVia(g, s, p, a, b, k, j)
  }

  /** The phrase `a GAP b` from `p`, with an inner gap of length `k`, ends at `j`. */
  ghost predicate PhraseVia(g: Gap, s: string, p: nat, a: string, b: string, k: nat, j: nat) {
    GapSpec(g, s, p + |a|, k) && StartsAt(s, p + |a| + k, b) && j == p + |a| + k + |b|
  }

  /** The pattern matches from `p` with the captured group `s[c..e]`. */
  ghost predicate MatchesAt(P: CapturePattern, s: string, p: nat, c: nat, e: nat) {
    p <= c < e <= |s|
    && (exists li, j | 0 <= li < |P.leads| && p <= j <= c :: LeadMatch(P.gap, P.leads[li], s, p, j) && GapSpec(P.gap, s, j, c - j))
    && ClassRun(P.cls, s, c, e) && AnySuffixAt(P, s, e)
  }

  /** The pattern matches from `p` through lead alternative `li`, which ends at `j`,
      with the captured group `s[c..e]`. */
  ghost predicate MatchesVia(P: CapturePattern, s: string, p: nat, li: nat, j: nat, c: nat, e: nat) {
    li < |P.leads| && p <= j <= c < e <= |s|
    && LeadMatch(P.gap, P.leads[li], s, p, j) && GapSpec(P.gap, s, j, c - j)
    && ClassRun(P.cls, s, c, e) && AnySuffixAt(P, s, e)
  }

  /** The lazy capture `[CLASS]+?` that already spans `s[c..e]`: the least end from
      `e` on at which a suffix alternative matches. */
  function LazyEnd(P: CapturePattern, s: string, c: nat, e: nat): Option<nat>
    requires c < e <= |s|
    decreases |s| - e
  {
    if AnySuffixAt(P, s, e) then Some(e)
    else if e < |s| && InClass(P.cls, s[e]) then LazyEnd(P, s, c, e + 1)
    else None
  }

  /** A lazy end extends the class run to a place where a suffix fits. */
  lemma {:induction false} LazyEndSound(P: CapturePattern, s: string, c: nat, e: nat)
    requires c < e <= |s| && ClassRun(P.cls, s, c, e) && LazyEnd(P, s, c, e).Some?
    ensures e <= LazyEnd(P, s, c, e).value <= |s|
    ensures ClassRun(P.cls, s, c, LazyEnd(P, s, c, e).value) && AnySuffixAt(P, s, LazyEnd(P, s, c, e).value)
    decreases |s| - e
  {
    if !AnySuffixAt(P, s, e) {
      LazyEndSound(P, s, c, e + 1);
    }
  }

  /** A lazy end is the first place from `e` on where a suffix fits. */
  lemma {:induction false} LazyEndLeast(P: CapturePattern, s: string, c: nat, e: nat)
    requires c < e <= |s| && LazyEnd(P, s, c, e).Some?
    ensures e <= LazyEnd(P, s, c, e).value <= |s|
    ensures forall x | e <= x < LazyEnd(P, s, c, e).value :: !AnySuffixAt(P, s, x)
    decreases |s| - e
  {
    if !AnySuffixAt(P, s, e) {
      LazyEndLeast(P, s, c, e + 1);
    }
  }

  /** The end of the lazy capture that starts at `c`, if there is one. */
  function CaptureFrom(P: CapturePattern, s: string, c: nat): Option<nat>
    requires c <= |s|
  {
    if c < |s| && InClass(P.cls, s[c]) then LazyEnd(P, s, c, c + 1) else None
  }

  /** A capture from `c` is a non-empty class run followed by a suffix, and no
      shorter run is followed by one. */
  lemma CaptureFromSound(P: CapturePattern, s: string, c: nat)
    requires c <= |s| && CaptureFrom(P, s, c).Some?
    ensures c < CaptureFrom(P, s, c).value <= |s|
    ensures ClassRun(P.cls, s, c, CaptureFrom(P, s, c).value) && AnySuffixAt(P, s, CaptureFrom(P, s, c).value)
    ensures forall x | c < x < CaptureFrom(P, s, c).value :: !AnySuffixAt(P, s, x)
  {
    LazyEndSound(P, s, c, c + 1);
    LazyEndLeast(P, s, c, c + 1);
  }

  /** Backtracking over a greedy count: `f` tried at `k`, `k - 1`, ... down to `lo`,
      and the first result that succeeds. */
  function Descend<T>(f: nat -> Option<T>, k: nat, lo: nat): Option<T>
    decreases k
  {
    if k < lo then None
    else if f(k).Some? then f(k)
    else if k == 0 then None
    else Descend(f, k - 1, lo)
  }

  /** A result of the descent is `f` at a count the descent tried. */
  lemma {:induction false} DescendSound<T>(f: nat -> Option<T>, k: nat, lo: nat) returns (k0: nat)
    requires Descend(f, k, lo).Some?
    ensures lo <= k0 <= k && Descend(f, k, lo) == f(k0)
    ensures forall k' | k0 < k' <= k :: f(k').None?
    decreases k
  {
    if f(k).Some? {
      k0 := k;
    } else {
      k0 := DescendSound(f, k - 1, lo);
    }
  }

  /** A count in range at which `f` succeeds is never missed. */
  lemma {:induction false} DescendComplete<T>(f: nat -> Option<T>, k: nat, lo: nat, k0: nat)
    requires lo <= k0 <= k && f(k0).Some?
    ensures Descend(f, k, lo).Some?
    decreases k
  {
    if f(k).None? {
      DescendComplete(f, k - 1, lo, k0);
    }
  }

  /** The capture after a gap of length `k` at `j`. */
  function GapTail(P: CapturePattern, s: string, j: nat): nat -> Option<(nat, nat)> {
    (k: nat) =>
      var c: nat := j + k;
      if c <= |s| then
        match CaptureFrom(P, s, c)
        case Some(e) => Some((c, e))
        case None => None
      else None
  }

  /** The gap before the capture at `j`, tried from length `k` down (greedy). */
  function TryGaps(P: CapturePattern, s: string, j: nat, k: nat): Option<(nat, nat)> {
    Descend(GapTail(P, s, j), k, GapMin(P.gap))
  }

  /** A result of the gap search is a gap length tried and the capture after it. */
  lemma TryGapsSound(P: CapturePattern, s: string, j: nat, k: nat)
    requires j + k <= |s| && TryGaps(P, s, j, k).Some?
    ensures j + GapMin(P.gap) <= TryGaps(P, s, j, k).value.0 <= j + k
    ensures CaptureFrom(P, s, TryGaps(P, s, j, k).value.0) == Some(TryGaps(P, s, j, k).value.1)
  {
    var k0 := DescendSound(GapTail(P, s, j), k, GapMin(P.gap));
  }

  /** The gap is greedy: no longer gap up to `k` is followed by a capture. */
  lemma TryGapsGreedy(P: CapturePattern, s: string, j: nat, k: nat)
    requires j + k <= |s| && TryGaps(P, s, j, k).Some?
    ensures j <= TryGaps(P, s, j, k).value.0
    ensures forall c: nat | TryGaps(P, s, j, k).value.0 < c <= j + k :: CaptureFrom(P, s, c).None?
  {
    var k0 := DescendSound(GapTail(P, s, j), k, GapMin(P.gap));
    forall c: nat | TryGaps(P, s, j, k).value.0 < c <= j + k ensures CaptureFrom(P, s, c).None? {
      var k': nat := c - j;
      assert GapTail(P, s, j)(k').None?;
    }
  }

  /** Everything after a lead alternative that ends at `j`. */
  function AfterLead(P: CapturePattern, s: string, j: nat): Option<(nat, nat)>
    requires j <= |s|
  {
    TryGaps(P, s, j, GapMax(P.gap, s, j))
  }

  /** What follows the phrase `a GAP b` from `p` when its inner gap has length `k`. */
  function PhraseTail(P: CapturePattern, s: string, p: nat, a: string, b: string): nat -> Option<(nat, nat)> {
    k => if StartsAt(s, p + |a| + k, b) then AfterLead(P, s, p + |a| + k + |b|) else None
  }

  /** The phrase `a GAP b` from `p`, its inner gap tried from length `k` down. */
  function TryPhrase(P: CapturePattern, s: string, p: nat, a: string, b: string, k: nat): Option<(nat, nat)> {
    Descend(PhraseTail(P, s, p, a, b), k, GapMin(P.gap))
  }

  function TryLead(P: CapturePattern, s: string, p: nat, lead: Lead): Option<(nat, nat)>
    requires p <= |s|
  {
    match lead
    case Word(w) => if StartsAt(s, p, w) then AfterLead(P, s, p + |w|) else None
    case Phrase(a, b) =>
      if StartsAt(s, p, a) then TryPhrase(P, s, p, a, b, GapMax(P.gap, s, p + |a|)) else None
  }

  /** The lead alternatives from index `i` on, in order. */
  function TryLeads(P: CapturePattern, s: string, p: nat, i: nat): Option<(nat, nat)>
    requires p <= |s| && i <= |P.leads|
    decreases |P.leads| - i
  {
    if i == |P.leads| then None
    else
      var r := TryLead(P, s, p, P.leads[i]);
      if r.Some? then r else TryLeads(P, s, p, i + 1)
  }

  /** The capture the pattern yields when the match starts at `p`. */
  function MatchAt(P: CapturePattern, s: string, p: nat): Option<(nat, nat)>
    requires p <= |s|
  {
    TryLeads(P, s, p, 0)
  }

  /** Where a match starts, and the bounds of its captured group. */
  datatype Hit = Hit(start: nat, from: nat, to: nat)

  /** The leftmost match that starts at `p` or later. */
  function SearchFrom(P: CapturePattern, s: string, p: nat): (r: Option<Hit>)
    requires p <= |s|
    ensures r.Some? ==> p <= r.value.start <= |s| && MatchAt(P, s, r.value.start) == Some((r.value.from, r.value.to))
    ensures r.Some? ==> forall q | p <= q < r.value.start :: MatchAt(P, s, q).None?
    ensures r.None? ==> forall q | p <= q <= |s| :: MatchAt(P, s, q).None?
    decreases |s| - p
  {
    match MatchAt(P, s, p)
    case Some(ce) => Some(Hit(p, ce.0, ce.1))
    case None => if p < |s| then SearchFrom(P, s, p + 1) else None
  }

  function Search(P: CapturePattern, s: string): Option<Hit> {
    SearchFrom(P, s, 0)
  }

  /** `match(...)[1]`: the captured group of the leftmost match, `None` when the
      pattern does not match. */
  function Capture(P: CapturePattern, s: string): Option<string> {
    match Search(P, s)
    case Some(h) =>
      MatchAtSound(P, s, h.start);
      Some(s[h.from..h.to])
    case None => None
  }

  // ------------------------------------------- soundness of the matcher

  /** After a lead alternative, the matcher finds a gap and a full capture. */
  lemma SoundAfterLead(P: CapturePattern, s: string, j: nat)
    requires j <= |s| && AfterLead(P, s, j).Some?
    ensures j <= AfterLead(P, s, j).value.0 < AfterLead(P, s, j).value.1 <= |s|
    ensures GapSpec(P.gap, s, j, AfterLead(P, s, j).value.0 - j)
    ensures ClassRun(P.cls, s, AfterLead(P, s, j).value.0, AfterLead(P, s, j).value.1)
    ensures AnySuffixAt(P, s, AfterLead(P, s, j).value.1)
    ensures CaptureFrom(P, s, AfterLead(P, s, j).value.0) == Some(AfterLead(P, s, j).value.1)
  {
    TryGapsSound(P, s, j, GapMax(P.gap, s, j));
    CaptureFromSound(P, s, AfterLead(P, s, j).value.0);
    GapBounds(P.gap, s, j, AfterLead(P, s, j).value.0 - j);
  }

  /** A phrase lead: the matcher's result comes from an end `j` of the phrase. */
  lemma TryPhraseSound(P: CapturePattern, s: string, p: nat, a: string, b: string, k: nat)
      returns (k0: nat, j: nat)
    requires TryPhrase(P, s, p, a, b, k).Some?
    ensures GapMin(P.gap) <= k0 <= k && StartsAt(s, p + |a| + k0, b) && j == p + |a| + k0 + |b|
    ensures j <= |s| && AfterLead(P, s, j) == TryPhrase(P, s, p, a, b, k)
    ensures forall j': nat | j < j' <= p + |a| + k + |b| && StartsAt(s, j' - |b|, b) :: AfterLead(P, s, j').None?
  {
    k0 := DescendSound(PhraseTail(P, s, p, a, b), k, GapMin(P.gap));
    j := p + |a| + k0 + |b|;
    forall j': nat | j < j' <= p + |a| + k + |b| && StartsAt(s, j' - |b|, b) ensures AfterLead(P, s, j').None? {
      var k': nat := j' - |b| - p - |a|;
      assert PhraseTail(P, s, p, a, b)(k').None?;
    }
  }

  /** The result of one lead alternative comes from an end `j` of that lead. */
  lemma TryLeadSound(P: CapturePattern, s: string, p: nat, lead: Lead) returns (j: nat)
    requires p <= |s| && TryLead(P, s, p, lead).Some?
    ensures p <= j <= |s|
    ensures LeadMatch(P.gap, lead, s, p, j) && AfterLead(P, s, j) == TryLead(P, s, p, lead)
    ensures forall j' | j < j' <= |s| && LeadMatch(P.gap, lead, s, p, j') :: AfterLead(P, s, j').None?
  {
    match lead
    case Word(w) =>
      j := p + |w|;
    case Phrase(a, b) =>
      var k0;
      k0, j := TryPhraseSound(P, s, p, a, b, GapMax(P.gap, s, p + |a|));
      GapBounds(P.gap, s, p + |a|, k0);
      assert PhraseVia(P.gap, s, p, a, b, k0, j);
      PhraseEndGreedy(P, s, p, a, b, k0);
  }

  /** When no longer inner gap than `k0` leads anywhere, no later end of the phrase
      does either. */
  lemma PhraseEndGreedy(P: CapturePattern, s: string, p: nat, a: string, b: string, k0: nat)
    requires p + |a| <= |s|
    requires forall j': nat | p + |a| + k0 + |b| < j' <= p + |a| + GapMax(P.gap, s, p + |a|) + |b| && StartsAt(s, j' - |b|, b) ::
      AfterLead(P, s, j').None?
    ensures forall j' | p + |a| + k0 + |b| < j' <= |s| && LeadMatch(P.gap, Phrase(a, b), s, p, j') :: AfterLead(P, s, j').None?
  {
    forall j' | p + |a| + k0 + |b| < j' <= |s| && LeadMatch(P.gap, Phrase(a, b), s, p, j') ensures AfterLead(P, s, j').None? {
      var k': nat :| p + |a| + k' <= j' && PhraseVia(P.gap, s, p, a, b, k', j');
      PhraseEndOne(P, s, p, a, b, k', j');
    }
  }

  /** A phrase end is reached through an inner gap the phrase search tries. */
  lemma PhraseEndOne(P: CapturePattern, s: string, p: nat, a: string, b: string, k': nat, j': nat)
    requires p + |a| <= |s| && PhraseVia(P.gap, s, p, a, b, k', j')
    ensures k' <= GapMax(P.gap, s, p + |a|) && StartsAt(s, p + |a| + k', b) && j' == p + |a| + k' + |b|
  {
    GapBounds(P.gap, s, p + |a|, k');
  }

  /** The matcher's result for a start comes from a lead alternative that ends at `j`. */
  lemma {:induction false} TryLeadsSound(P: CapturePattern, s: string, p: nat, i: nat)
      returns (li: nat, j: nat)
    requires p <= |s| && i <= |P.leads| && TryLeads(P, s, p, i).Some?
    ensures i <= li < |P.leads| && p <= j <= |s|
    ensures LeadMatch(P.gap, P.leads[li], s, p, j) && AfterLead(P, s, j) == TryLeads(P, s, p, i)
    ensures forall li' | i <= li' < li :: TryLead(P, s, p, P.leads[li']).None?
    ensures forall j' | j < j' <= |s| && LeadMatch(P.gap, P.leads[li], s, p, j') :: AfterLead(P, s, j').None?
    decreases |P.leads| - i
  {
    if TryLead(P, s, p, P.leads[i]).Some? {
      li := i;
      j := TryLeadSound(P, s, p, P.leads[i]);
    } else {
      li, j := TryLeadsSound(P, s, p, i + 1);
    }
  }

  /** What the matcher returns for a start is a match from that start. */
  lemma MatchAtSound(P: CapturePattern, s: string, p: nat)
    requires p <= |s| && MatchAt(P, s, p).Some?
    ensures MatchesAt(P, s, p, MatchAt(P, s, p).value.0, MatchAt(P, s, p).value.1)
    ensures CaptureFrom(P, s, MatchAt(P, s, p).value.0) == Some(MatchAt(P, s, p).value.1)
  {
    var li, j := TryLeadsSound(P, s, p, 0);
    SoundAfterLead(P, s, j);
    assert p <= j <= MatchAt(P, s, p).value.0;
  }

  // ---------------------------------------- completeness of the matcher

  lemma {:induction false} LazyEndComplete(P: CapturePattern, s: string, c: nat, e: nat, x: nat)
    requires c < e <= x <= |s| && ClassRun(P.cls, s, c, x) && AnySuffixAt(P, s, x)
    ensures LazyEnd(P, s, c, e).Some? && LazyEnd(P, s, c, e).value <= x
    decreases x - e
  {
    if !AnySuffixAt(P, s, e) {
      assert e < x;
      LazyEndComplete(P, s, c, e + 1, x);
    }
  }

  lemma TryGapsComplete(P: CapturePattern, s: string, j: nat, k: nat, c: nat, x: nat)
    requires j + k <= |s| && j + GapMin(P.gap) <= c <= j + k
    requires c < x <= |s| && ClassRun(P.cls, s, c, x) && AnySuffixAt(P, s, x)
    ensures TryGaps(P, s, j, k).Some?
  {
    LazyEndComplete(P, s, c, c + 1, x);
    assert CaptureFrom(P, s, c).Some?;
    DescendComplete(GapTail(P, s, j), k, GapMin(P.gap), c - j);
  }

  lemma AfterLeadComplete(P: CapturePattern, s: string, j: nat, c: nat, x: nat)
    requires j <= c && GapSpec(P.gap, s, j, c - j)
    requires c < x <= |s| && ClassRun(P.cls, s, c, x) && AnySuffixAt(P, s, x)
    ensures AfterLead(P, s, j).Some?
  {
    GapBounds(P.gap, s, j, c - j);
    TryGapsComplete(P, s, j, GapMax(P.gap, s, j), c, x);
  }

  lemma TryPhraseComplete(P: CapturePattern, s: string, p: nat, a: string, b: string, k0: nat, j: nat, c: nat, x: nat)
    requires PhraseVia(P.gap, s, p, a, b, k0, j) && j <= c && GapSpec(P.gap, s, j, c - j)
    requires c < x <= |s| && ClassRun(P.cls, s, c, x) && AnySuffixAt(P, s, x)
    ensures p + |a| <= |s| && TryPhrase(P, s, p, a, b, GapMax(P.gap, s, p + |a|)).Some?
  {
    GapBounds(P.gap, s, p + |a|, k0);
    AfterLeadComplete(P, s, j, c, x);
    assert PhraseTail(P, s, p, a, b)(k0).Some?;
    DescendComplete(PhraseTail(P, s, p, a, b), GapMax(P.gap, s, p + |a|), GapMin(P.gap), k0);
  }

  lemma TryPhraseLeadComplete(P: CapturePattern, s: string, p: nat, a: string, b: string, j: nat, c: nat, x: nat)
    requires p <= |s| && p <= j <= c
    requires LeadMatch(P.gap, Phrase(a, b), s, p, j) && GapSpec(P.gap, s, j, c - j)
    requires c < x <= |s| && ClassRun(P.cls, s, c, x) && AnySuffixAt(P, s, x)
    ensures TryLead(P, s, p, Phrase(a, b)).Some?
  {
    var k0: nat :| p + |a| + k0 <= j && PhraseVia(P.gap, s, p, a, b, k0, j);
    TryPhraseComplete(P, s, p, a, b, k0, j, c, x);
  }

  lemma TryLeadComplete(P: CapturePattern, s: string, p: nat, lead: Lead, j: nat, c: nat, x: nat)
    requires p <= |s| && p <= j <= c
    requires LeadMatch(P.gap, lead, s, p, j) && GapSpec(P.gap, s, j, c - j)
    requires c < x <= |s| && ClassRun(P.cls, s, c, x) && AnySuffixAt(P, s, x)
    ensures TryLead(P, s, p, lead).Some?
  {
    match lead
    case Word(w) =>
      AfterLeadComplete(P, s, j, c, x);
    case Phrase(a, b) =>
      TryPhraseLeadComplete(P, s, p, a, b, j, c, x);
  }

  lemma {:induction false} TryLeadsComplete(P: CapturePattern, s: string, p: nat, i: nat, li: nat, j: nat, c: nat, x: nat)
    requires p <= |s| && i <= li < |P.leads| && p <= j <= c
    requires LeadMatch(P.gap, P.leads[li], s, p, j) && GapSpec(P.gap, s, j, c - j)
    requires c < x <= |s| && ClassRun(P.cls, s, c, x) && AnySuffixAt(P, s, x)
    ensures TryLeads(P, s, p, i).Some?
    decreases |P.leads| - i
  {
    if i == li {
      TryLeadComplete(P, s, p, P.leads[i], j, c, x);
    } else if TryLead(P, s, p, P.leads[i]).None? {
      TryLeadsComplete(P, s, p, i + 1, li, j, c, x);
    }
  }

  /** A match from `p` is never missed by the matcher. */
  lemma MatchAtComplete(P: CapturePattern, s: string, p: nat, c: nat, e: nat)
    requires MatchesAt(P, s, p, c, e)
    ensures MatchAt(P, s, p).Some?
  {
    var li, j :| 0 <= li < |P.leads| && p <= j <= c && LeadMatch(P.gap, P.leads[li], s, p, j) && GapSpec(P.gap, s, j, c - j);
    TryLeadsComplete(P, s, p, 0, li, j, c, e);
  }

  /** The match the matcher returns from `p` goes through the first lead alternative
      that leads to any match, the latest end of that lead that does, and the
      longest gap after it that does. */
  lemma MatchAtPreferred(P: CapturePattern, s: string, p: nat) returns (li: nat, j: nat)
    requires p <= |s| && MatchAt(P, s, p).Some?
    ensures MatchesVia(P, s, p, li, j, MatchAt(P, s, p).value.0, MatchAt(P, s, p).value.1)
    ensures forall li': nat, j': nat, c': nat, e': nat | li' < li :: !MatchesVia(P, s, p, li', j', c', e')
    ensures forall j': nat, c': nat, e': nat | j < j' :: !MatchesVia(P, s, p, li, j', c', e')
    ensures forall c': nat, e': nat | MatchAt(P, s, p).value.0 < c' :: !MatchesVia(P, s, p, li, j, c', e')
  {
    li, j := TryLeadsSound(P, s, p, 0);
    SoundAfterLead(P, s, j);
    EarlierLeadsFail(P, s, p, li);
    LaterEndsFail(P, s, p, li, j);
    LongerGapsFail(P, s, p, li, j);
  }

  lemma EarlierLeadsFail(P: CapturePattern, s: string, p: nat, li: nat)
    requires p <= |s| && li <= |P.leads|
    requires forall li' | 0 <= li' < li :: TryLead(P, s, p, P.leads[li']).None?
    ensures forall li': nat, j': nat, c': nat, e': nat | li' < li :: !MatchesVia(P, s, p, li', j', c', e')
  {
    forall li': nat, j': nat, c': nat, e': nat | li' < li && MatchesVia(P, s, p, li', j', c', e') ensures false {
      TryLeadComplete(P, s, p, P.leads[li'], j', c', e');
    }
  }

  lemma LaterEndsFail(P: CapturePattern, s: string, p: nat, li: nat, j: nat)
    requires li < |P.leads|
    requires forall j' | j < j' <= |s| && LeadMatch(P.gap, P.leads[li], s, p, j') :: AfterLead(P, s, j').None?
    ensures forall j': nat, c': nat, e': nat | j < j' :: !MatchesVia(P, s, p, li, j', c', e')
  {
    forall j': nat, c': nat, e': nat | j < j' && MatchesVia(P, s, p, li, j', c', e') ensures false {
      AfterLeadComplete(P, s, j', c', e');
    }
  }

  lemma LongerGapsFail(P: CapturePattern, s: string, p: nat, li: nat, j: nat)
    requires j <= |s| && AfterLead(P, s, j).Some?
    ensures forall c': nat, e': nat | AfterLead(P, s, j).value.0 < c' :: !MatchesVia(P, s, p, li, j, c', e')
  {
    TryGapsGreedy(P, s, j, GapMax(P.gap, s, j));
    forall c': nat, e': nat | AfterLead(P, s, j).value.0 < c' && MatchesVia(P, s, p, li, j, c', e') ensures false {
      GapCapture(P, s, p, li, j, c', e');
    }
  }

  /** A match through the lead end `j` with its group at `c` has a gap the gap
      search tries and a capture from `c`. */
  lemma GapCapture(P: CapturePattern, s: string, p: nat, li: nat, j: nat, c: nat, e: nat)
    requires MatchesVia(P, s, p, li, j, c, e)
    ensures j <= c <= j + GapMax(P.gap, s, j) && CaptureFrom(P, s, c).Some?
  {
    GapBounds(P.gap, s, j, c - j);
    LazyEndComplete(P, s, c, c + 1, e);
  }

  /** `Capture` fails if and only if the pattern matches nowhere. */
  lemma CaptureNone(P: CapturePattern, s: string)
    ensures Capture(P, s).None? <==> forall p: nat, c: nat, e: nat :: !MatchesAt(P, s, p, c, e)
  {
    match Search(P, s)
    case None =>
      forall p: nat, c: nat, e: nat | MatchesAt(P, s, p, c, e) ensures false {
        MatchAtComplete(P, s, p, c, e);
      }
    case Some(h) =>
      MatchAtSound(P, s, h.start);
  }

  /** A capture is the group of a match that starts no later than any other match.
      From that start it takes the first lead alternative that leads to a match, the
      longest run of that lead's inner gap that does, then the longest gap before the
      group that does, and the group ends at the first place where a suffix fits. */
  lemma CaptureSome(P: CapturePattern, s: string) returns (p: nat, li: nat, j: nat, c: nat, e: nat)
    requires Capture(P, s).Some?
    ensures MatchesVia(P, s, p, li, j, c, e) && MatchesAt(P, s, p, c, e) && Capture(P, s).value == s[c..e]
    ensures forall q: nat, c': nat, e': nat :: MatchesAt(P, s, q, c', e') ==> p <= q
    ensures forall li': nat, j': nat, c': nat, e': nat | li' < li :: !MatchesVia(P, s, p, li', j', c', e')
    ensures forall j': nat, c': nat, e': nat | j < j' :: !MatchesVia(P, s, p, li, j', c', e')
    ensures forall c': nat, e': nat | c < c' :: !MatchesVia(P, s, p, li, j, c', e')
    ensures forall x | c < x < e :: !AnySuffixAt(P, s, x)
  {
    var h := Search(P, s).value;
    p, c, e := h.start, h.from, h.to;
    MatchAtSound(P, s, p);
    CaptureFromSound(P, s, c);
    li, j := MatchAtPreferred(P, s, p);
    forall q: nat, c': nat, e': nat | MatchesAt(P, s, q, c', e') ensures p <= q {
      MatchAtComplete(P, s, q, c', e');
    }
  }

  /** For a pattern led by one word, the capture's match is also the one with the
      longest gap from its start: a group starting later from the same start does
      not match. */
  lemma CaptureSomeWord(P: CapturePattern, s: string) returns (p: nat, c: nat, e: nat)
    requires |P.leads| == 1 && P.leads[0].Word? && Capture(P, s).Some?
    ensures MatchesAt(P, s, p, c, e) && Capture(P, s).value == s[c..e]
    ensures forall q: nat, c': nat, e': nat :: MatchesAt(P, s, q, c', e') ==> p <= q
    ensures forall c': nat, e': nat | c < c' :: !MatchesAt(P, s, p, c', e')
    ensures forall x | c < x < e :: !AnySuffixAt(P, s, x)
  {
    var li, j;
    p, li, j, c, e := CaptureSome(P, s);
    forall c': nat, e': nat | c < c' ensures !MatchesAt(P, s, p, c', e') {
      WordLeadGreedy(P, s, p, li, j, c, c', e');
    }
  }

  /** With one word as lead, every match from `p` goes through that word and ends
      the lead at the same index. */
  lemma WordLeadGreedy(P: CapturePattern, s: string, p: nat, li: nat, j: nat, c: nat, c': nat, e': nat)
    requires |P.leads| == 1 && P.leads[0].Word? && li < |P.leads| && LeadMatch(P.gap, P.leads[li], s, p, j)
    requires forall c'': nat, e'': nat | c < c'' :: !MatchesVia(P, s, p, li, j, c'', e'')
    requires c < c'
    ensures !MatchesAt(P, s, p, c', e')
  {
    if MatchesAt(P, s, p, c', e') {
      var li', j' := MatchesViaSome(P, s, p, c', e');
    }
  }

  /** A match names a lead alternative and the end of that lead. */
  lemma MatchesViaSome(P: CapturePattern, s: string, p: nat, c: nat, e: nat) returns (li: nat, j: nat)
    requires MatchesAt(P, s, p, c, e)
    ensures MatchesVia(P, s, p, li, j, c, e)
  {
    li, j :| 0 <= li < |P.leads| && p <= j <= c && LeadMatch(P.gap, P.leads[li], s, p, j) && GapSpec(P.gap, s, j, c - j);
  }

  /** Every character of a capture belongs to the pattern's class. */
  lemma CaptureInClass(P: CapturePattern, s: string)
    requires Capture(P, s).Some?
    ensures forall i | 0 <= i < |Capture(P, s).value| :: InClass(P.cls, Capture(P, s).value[i])
  {
    var h := Search(P, s).value;
    MatchAtSound(P, s, h.start);
  }

  /** A match whose start no earlier position can match, and which the matcher finds
      at that start, is the capture. */
  lemma CaptureOfLeftmost(P: CapturePattern, s: string, p: nat, c: nat, e: nat)
    requires MatchesAt(P, s, p, c, e)
    requires forall q: nat | q < p && q <= |s| :: MatchAt(P, s, q).None?
    requires MatchAt(P, s, p) == Some((c, e))
    ensures Capture(P, s) == Some(s[c..e])
  {
    MatchAtComplete(P, s, p, c, e);
  }

  // --------------------------------------------- keyword alternations

  /** Where an alternation of plain words may match: anywhere, or only as a whole
      word (`\b(...)\b`). */
  datatype Boundary = Anywhere | WholeWord

  predicate WordAt(b: Boundary, s: string, p: nat, w: string) {
    StartsAt(s, p, w) &&
    (b == WholeWord ==> (p == 0 || !IsWordChar(s[p - 1])) && (p + |w| == |s| || !IsWordChar(s[p + |w|])))
  }

  /** The first alternative, in order, that matches at `p`. */
  function FirstWordAt(b: Boundary, s: string, p: nat, ws: seq<string>): (r: Option<nat>)
    ensures r.Some? ==> r.value < |ws|
  {
    if ws == [] then None
    else if WordAt(b, s, p, ws[0]) then Some(0)
    else match FirstWordAt(b, s, p, ws[1..])
      case Some(k) => Some(k + 1)
      case None => None
  }

  /** The alternative found at `p` matches there and no earlier one does; none is
      found exactly when no alternative matches at `p`. */
  lemma {:induction false} FirstWordAtSound(b: Boundary, s: string, p: nat, ws: seq<string>)
    ensures var r := FirstWordAt(b, s, p, ws);
      && (r.Some? ==> WordAt(b, s, p, ws[r.value]) && forall k | 0 <= k < r.value :: !WordAt(b, s, p, ws[k]))
      && (r.None? ==> forall k | 0 <= k < |ws| :: !WordAt(b, s, p, ws[k]))
  {
    if ws != [] && !WordAt(b, s, p, ws[0]) {
      FirstWordAtSound(b, s, p, ws[1..]);
      forall k | 1 <= k < |ws| ensures ws[k] == ws[1..][k - 1] { }
    }
  }

  /** Where the leftmost match of the alternation from `p` on starts. */
  function FirstWordPos(b: Boundary, s: string, p: nat, ws: seq<string>): (r: Option<nat>)
    requires p <= |s|
    ensures r.Some? ==> p <= r.value <= |s| && FirstWordAt(b, s, r.value, ws).Some?
    ensures r.Some? ==> forall q | p <= q < r.value :: FirstWordAt(b, s, q, ws).None?
    ensures r.None? ==> forall q | p <= q <= |s| :: FirstWordAt(b, s, q, ws).None?
    decreases |s| - p
  {
    if FirstWordAt(b, s, p, ws).Some? then Some(p)
    else if p < |s| then FirstWordPos(b, s, p + 1, ws)
    else None
  }

  /** `s.match(/(w1|w2|...)/)[1]` (or with `\b` around the group): the alternative of
      the leftmost match from `p` on, preferring earlier alternatives at one index. */
  function FirstWord(b: Boundary, s: string, p: nat, ws: seq<string>): (r: Option<string>)
    requires p <= |s|
    ensures r.Some? ==> r.value in ws
  {
    match FirstWordPos(b, s, p, ws)
    case Some(q) => Some(ws[FirstWordAt(b, s, q, ws).value])
    case None => None
  }

  /** A word found occurs at some index from `p` on, and nothing is found exactly
      when no alternative occurs anywhere from `p` on. */
  lemma FirstWordSound(b: Boundary, s: string, p: nat, ws: seq<string>)
    requires p <= |s|
    ensures FirstWord(b, s, p, ws).Some? ==>
      exists q, k | p <= q <= |s| && 0 <= k < |ws| :: FirstWord(b, s, p, ws).value == ws[k] && WordAt(b, s, q, ws[k])
    ensures FirstWord(b, s, p, ws).None? <==> forall q, k | p <= q <= |s| && 0 <= k < |ws| :: !WordAt(b, s, q, ws[k])
  {
    match FirstWordPos(b, s, p, ws)
    case Some(q) =>
      FirstWordAtSound(b, s, q, ws);
    case None =>
      forall q, k | p <= q <= |s| && 0 <= k < |ws| ensures !WordAt(b, s, q, ws[k]) {
        FirstWordAtSound(b, s, q, ws);
      }
  }

  /** The word found is the earliest alternative at the leftmost index where any
      alternative matches: none matches between `p` and that index, and no earlier
      alternative matches at it. */
  lemma FirstWordLeftmost(b: Boundary, s: string, p: nat, ws: seq<string>)
    requires p <= |s| && FirstWord(b, s, p, ws).Some?
    ensures var q := FirstWordPos(b, s, p, ws).value; var k := FirstWordAt(b, s, q, ws).value;
      && FirstWord(b, s, p, ws) == Some(ws[k]) && WordAt(b, s, q, ws[k])
      && (forall k' | 0 <= k' < k :: !WordAt(b, s, q, ws[k']))
      && (forall q', k' | p <= q' < q && 0 <= k' < |ws| :: !WordAt(b, s, q', ws[k']))
  {
    var q := FirstWordPos(b, s, p, ws).value;
    FirstWordAtSound(b, s, q, ws);
    forall q', k' | p <= q' < q && 0 <= k' < |ws| ensures !WordAt(b, s, q', ws[k']) {
      FirstWordAtSound(b, s, q', ws);
    }
  }

  // ---------------------------------------- keyword sequences on one line

  /** `G0.*G1.*...Gn` anchored at `p`: an alternative of the first group starts at
      `p`, and each later group follows after a run of characters that are not line
      terminators (what `.` matches). */
  function StagesAt(groups: seq<seq<string>>, s: string, p: nat): bool
    decreases |groups|, 0, 0
  {
    if groups == [] then true
    else exists k | 0 <= k < |groups[0]| :: StartsAt(s, p, groups[0][k]) && LaterStages(groups[1..], s, p + |groups[0][k]|)
  }

  function LaterStages(groups: seq<seq<string>>, s: string, q: nat): bool
    decreases |groups|, 1, |s| - q
  {
    if groups == [] then true
    else StagesAt(groups, s, q) || (q < |s| && !IsLineTerminator(s[q]) && LaterStages(groups, s, q + 1))
  }

  /** `RegExp.prototype.test` for `G0.*G1.*...Gn`: a match starts somewhere. */
  predicate StagesAnywhere(groups: seq<seq<string>>, s: string) {
    exists p: nat | p <= |s| :: StagesAt(groups, s, p)
  }

  /** When the stages match, an alternative of the last group occurs in the text. */
  lemma {:induction false} StagesIncludeLast(groups: seq<seq<string>>, s: string, p: nat)
    requires |groups| > 0 && StagesAt(groups, s, p)
    ensures IncludesAny(s, groups[|groups| - 1])
    decreases |groups|, 0, 0
  {
    var k :| 0 <= k < |groups[0]| && StartsAt(s, p, groups[0][k]) && LaterStages(groups[1..], s, p + |groups[0][k]|);
    if |groups| == 1 {
      assert Includes(s, groups[0][k]);
    } else {
      LaterIncludeLast(groups[1..], s, p + |groups[0][k]|);
      assert groups[1..][|groups[1..]| - 1] == groups[|groups| - 1];
    }
  }

  lemma {:induction false} LaterIncludeLast(groups: seq<seq<string>>, s: string, q: nat)
    requires |groups| > 0 && LaterStages(groups, s, q)
    ensures IncludesAny(s, groups[|groups| - 1])
    decreases |groups|, 1, |s| - q
  {
    if StagesAt(groups, s, q) {
      StagesIncludeLast(groups, s, q);
    } else {
      LaterIncludeLast(groups, s, q + 1);
    }
  }

  /** Two stages match when an alternative of the second follows one of the first on
      the same line. */
  lemma {:induction false} TwoStagesWitness(g0: seq<string>, g1: seq<string>, s: string, p: nat, k0: nat, q: nat, k1: nat)
    requires k0 < |g0| && k1 < |g1| && StartsAt(s, p, g0[k0]) && StartsAt(s, q, g1[k1])
    requires p + |g0[k0]| <= q
    requires forall m | p + |g0[k0]| <= m < q :: !IsLineTerminator(s[m])
    ensures StagesAt([g0, g1], s, p)
  {
    var groups := [g0, g1];
    LaterWitness([g1], s, p + |g0[k0]|, q, k1);
    assert groups[1..] == [g1] && groups[0][k0] == g0[k0];
    assert StartsAt(s, p, groups[0][k0]) && LaterStages(groups[1..], s, p + |groups[0][k0]|);
  }

  lemma {:induction false} LaterWitness(groups: seq<seq<string>>, s: string, from: nat, q: nat, k1: nat)
    requires |groups| == 1 && k1 < |groups[0]| && StartsAt(s, q, groups[0][k1]) && from <= q
    requires forall m | from <= m < q :: !IsLineTerminator(s[m])
    ensures LaterStages(groups, s, from)
    decreases q - from
  {
    if from == q {
      assert LaterStages(groups[1..], s, q + |groups[0][k1]|);
      assert StagesAt(groups, s, q);
    } else {
      LaterWitness(groups, s, from + 1, q, k1);
    }
  }
}
