/** The radio programme search: flattening the parsed station/programme tree into a programme
    list, normalising text for matching, the AND/OR keyword filter, and the per-hour heatmap of
    the filtered programmes. Fetching, caching and XML parsing happen before this model starts:
    the input is the tree the parser produced. */
module ProgramSearch {

  import opened Seqs
  import opened Text

  // ---------------------------------------------------------------------------
  // Normalisation

  /** Full-width digits U+FF10..U+FF19 and full-width Latin letters U+FF21..U+FF3A, U+FF41..U+FF5A. */
  predicate IsWideAlnum(c: char)
  {
    ('\U{FF10}' <= c <= '\U{FF19}') || IsWideUpper(c) || ('\U{FF41}' <= c <= '\U{FF5A}')
  }

  /** Katakana from U+30A1 to U+30F3. */
  predicate IsKatakana(c: char)
  {
    '\U{30A1}' <= c <= '\U{30F3}'
  }

  /** A full-width letter or digit becomes its ASCII counterpart. */
  function HalfWidth(c: char): char
  {
    if IsWideAlnum(c) then (c as int - 0xFEE0) as char else c
  }

  /** A katakana letter is moved up by 0x60, into U+3101..U+3153 (Bopomofo and Hangul
      compatibility letters). Hiragana sits 0x60 *below* katakana, so this shift does not bring
      the two kana scripts together: it only keeps katakana apart from everything else. */
  function KanaShift(c: char): char
  {
    if IsKatakana(c) then (c as int + 0x60) as char else c
  }

  /** A character that normalising leaves as it is. */
  predicate IsNormal(c: char)
  {
    !IsAsciiUpper(c) && !IsWideUpper(c) && !IsWideAlnum(c) && !IsKatakana(c)
  }

  /** `normalizeString`: lower-case, then full-width letters and digits to ASCII, then katakana
      shifted up by 0x60. The length is kept, every character of the result is normal, normal
      characters are kept as they are, and each class of the others is mapped by its own offset. */
  function Normalize(s: string): (r: string)
    ensures |r| == |s|
    ensures forall i :: 0 <= i < |r| ==> IsNormal(r[i])
    ensures forall i :: 0 <= i < |s| && IsNormal(s[i]) ==> r[i] == s[i]
    ensures forall i :: 0 <= i < |s| && IsAsciiUpper(s[i]) ==> r[i] == (s[i] as int + 32) as char
    ensures forall i :: 0 <= i < |s| && IsWideUpper(s[i]) ==> r[i] == (s[i] as int + 32 - 0xFEE0) as char
    ensures forall i :: 0 <= i < |s| && ('\U{FF41}' <= s[i] <= '\U{FF5A}' || '\U{FF10}' <= s[i] <= '\U{FF19}') ==>
              r[i] == (s[i] as int - 0xFEE0) as char
    ensures forall i :: 0 <= i < |s| && IsKatakana(s[i]) ==> r[i] == (s[i] as int + 0x60) as char
  {
    var lower := ToLower(s);
    var half := seq(|lower|, i requires 0 <= i < |lower| => HalfWidth(lower[i]));
    seq(|half|, i requires 0 <= i < |half| => KanaShift(half[i]))
  }

  /** A katakana letter and the hiragana letter with the same sound (0x60 below it) stay
      different after normalising: a hiragana keyword never matches the katakana spelling. */
  lemma KanaScriptsStayApart(c: char)
    requires IsKatakana(c)
    ensures Normalize([c]) != Normalize([(c as int - 0x60) as char])
  {
    var h := (c as int - 0x60) as char;
    assert IsNormal(h);
    assert Normalize([c])[0] == (c as int + 0x60) as char;
    assert Normalize([h])[0] == h;
  }

  /** Normalising twice is normalising once. */
  lemma NormalizeIdempotent(s: string)
    ensures Normalize(Normalize(s)) == Normalize(s)
  {
    var r := Normalize(s);
    var rr := Normalize(r);
    forall i | 0 <= i < |r| ensures rr[i] == r[i] {
      assert IsNormal(r[i]);
    }
  }

  // ---------------------------------------------------------------------------
  // Keywords

  /** The length of the run of non-white-space characters at the start of `s`. */
  function WordLength(s: string): (n: nat)
    ensures n <= |s|
    ensures forall i :: 0 <= i < n ==> !IsSpace(s[i])
    ensures n < |s| ==> IsSpace(s[n])
    decreases |s|
  {
    if s != [] && !IsSpace(s[0]) then 1 + WordLength(s[1..]) else 0
  }

  predicate IsWord(w: string)
  {
    w != [] && forall i :: 0 <= i < |w| ==> !IsSpace(w[i])
  }

  /** `s.split(/\s+/).filter(k => k.length > 0)`: the maximal runs of non-white-space
      characters, in order. There are none exactly when `s` is blank. */
  function Words(s: string): (ws: seq<string>)
    ensures forall k :: 0 <= k < |ws| ==> IsWord(ws[k])
    ensures ws == [] <==> AllSpace(s)
    decreases |s|
  {
    if s == [] then []
    else if IsSpace(s[0]) then
      var rest := Words(s[1..]);
      assert AllSpace(s) <==> AllSpace(s[1..]) by {
        assert forall i :: 0 < i < |s| ==> s[i] == s[1..][i - 1];
      }
      rest
    else
      var n := WordLength(s);
      [s[..n]] + Words(s[n..])
  }

  function Concat(ws: seq<string>): string
  {
    if ws == [] then [] else ws[0] + Concat(ws[1..])
  }

  predicate NotSpace(c: char)
  {
    !IsSpace(c)
  }

  /** The words, put back together, are the input without its white space. */
  lemma {:induction false} WordsCoverInput(s: string)
    ensures Concat(Words(s)) == Filter(s, NotSpace)
    decreases |s|
  {
    if s != [] {
      if IsSpace(s[0]) {
        WordsCoverInput(s[1..]);
        SpaceStep(s);
      } else {
        var n := WordLength(s);
        WordsCoverInput(s[n..]);
        WordStep(s);
      }
    }
  }

  /** A leading white-space character adds no word and nothing to the filtered text. */
  lemma SpaceStep(s: string)
    requires s != [] && IsSpace(s[0])
    ensures Words(s) == Words(s[1..]) && Filter(s, NotSpace) == Filter(s[1..], NotSpace)
  {
  }

  /** A leading word is the first word and the start of the filtered text. */
  lemma LeadingWordFiltered(s: string)
    requires s != [] && !IsSpace(s[0])
    ensures var n := WordLength(s);
      Filter(s, NotSpace) == s[..n] + Filter(s[n..], NotSpace)
  {
    var n := WordLength(s);
    var w := s[..n];
    assert s == w + s[n..];
    FilterAppend(w, s[n..], NotSpace);
    assert forall i :: 0 <= i < |w| ==> NotSpace(w[i]);
    assert Filter(w, NotSpace) == w;
  }

  lemma WordStep(s: string)
    requires s != [] && !IsSpace(s[0])
    ensures var n := WordLength(s);
      Concat(Words(s)) == s[..n] + Concat(Words(s[n..])) && Filter(s, NotSpace) == s[..n] + Filter(s[n..], NotSpace)
  {
    var n := WordLength(s);
    var ws := Words(s);
    assert ws == [s[..n]] + Words(s[n..]);
    assert ws[1..] == Words(s[n..]);
    LeadingWordFiltered(s);
  }

  /** The normalised keyword list. */
  function KeywordList(keywords: string): (kws: seq<string>)
    ensures kws == [] <==> AllSpace(keywords)
    ensures |kws| == |Words(keywords)|
    ensures forall k :: 0 <= k < |kws| ==> kws[k] == Normalize(Words(keywords)[k])
  {
    var ws := Words(keywords);
    seq(|ws|, k requires 0 <= k < |ws| => Normalize(ws[k]))
  }

  // ---------------------------------------------------------------------------
  // Programmes and the keyword filter

  datatype Program = Program(stationId: string, stationName: string, title: string, desc: string,
                             start: Option<int>, end: Option<int>)

  datatype Mode = And | Or

  /** The text searched: normalised title, a space, normalised description. */
  function SearchText(p: Program): string
  {
    Normalize(p.title) + " " + Normalize(p.desc)
  }

  /** AND: every keyword occurs in the text; OR: at least one does. */
  predicate Hit(p: Program, kws: seq<string>, mode: Mode)
  {
    match mode
    case And => forall k :: 0 <= k < |kws| ==> Contains(SearchText(p), kws[k])
    case Or => exists k :: 0 <= k < |kws| && Contains(SearchText(p), kws[k])
  }

  /** The keyword effect: blank keywords keep the whole list; otherwise the programmes hit by the
      normalised keywords in the chosen mode, in their original order. */
  function KeywordFilter(programs: seq<Program>, keywords: string, mode: Mode): (r: seq<Program>)
    ensures AllSpace(keywords) ==> r == programs
    ensures !AllSpace(keywords) ==>
      (forall i :: 0 <= i < |r| ==> r[i] in programs && Hit(r[i], KeywordList(keywords), mode)) &&
      (forall i :: 0 <= i < |programs| && Hit(programs[i], KeywordList(keywords), mode) ==> programs[i] in r)
    ensures !AllSpace(keywords) ==>
      forall x :: multiset(r)[x] == if Hit(x, KeywordList(keywords), mode) then multiset(programs)[x] else 0
    ensures IsSubsequence(r, programs)
  {
    if Trim(keywords) == [] then
      SubsequenceRefl(programs);
      programs
    else
      var kws := KeywordList(keywords);
      var keep := (p: Program) => Hit(p, kws, mode);
      FilterCounts(programs, keep);
      Filter(programs, keep)
  }

  /** For the same keywords, the AND result is a subsequence of the OR result: a non-blank
      keyword string has at least one keyword, so hitting all of them hits one. */
  lemma AndWithinOr(programs: seq<Program>, keywords: string)
    ensures IsSubsequence(KeywordFilter(programs, keywords, And), KeywordFilter(programs, keywords, Or))
  {
    if AllSpace(keywords) {
      SubsequenceRefl(programs);
    } else {
      var kws := KeywordList(keywords);
      forall i | 0 <= i < |programs| && Hit(programs[i], kws, And) ensures Hit(programs[i], kws, Or) {
        assert Contains(SearchText(programs[i]), kws[0]);
      }
      FilterMonotone(programs, (p: Program) => Hit(p, kws, And), (p: Program) => Hit(p, kws, Or));
    }
  }

  // ---------------------------------------------------------------------------
  // Heatmap

  const HourMs: int := 3600000

  /** The largest magnitude of a valid `Date` time value. */
  const MaxTime: int := 8640000000000000

  /** `start.getHours()` in a zone `offsetMs` ahead of UTC; `None` for an invalid date, whose
      hour is `NaN`. */
  function HourOf(start: Option<int>, offsetMs: int): (h: Option<int>)
    ensures h.Some? <==> start.Some? && -MaxTime <= start.value <= MaxTime
    ensures h.Some? ==> 0 <= h.value < 24 && h.value == ((start.value + offsetMs) / HourMs) % 24
  {
    if start.Some? && -MaxTime <= start.value <= MaxTime then Some(((start.value + offsetMs) / HourMs) % 24) else None
  }

  /** The number of programmes starting in hour `h`. */
  function HourCount(ps: seq<Program>, h: int, offsetMs: int): nat
  {
    if ps == [] then 0
    else HourCount(ps[..|ps| - 1], h, offsetMs) + (if HourOf(ps[|ps| - 1].start, offsetMs) == Some(h) then 1 else 0)
  }

  /** The number of programmes with a valid start hour. */
  function Dated(ps: seq<Program>, offsetMs: int): nat
  {
    if ps == [] then 0
    else Dated(ps[..|ps| - 1], offsetMs) + (if HourOf(ps[|ps| - 1].start, offsetMs).Some? then 1 else 0)
  }

  /** One more programme adds one to its own hour's count and to the dated total, if it has a
      valid start, and nothing elsewhere. */
  lemma HourStep(ps: seq<Program>, i: nat, offsetMs: int)
    requires i < |ps|
    ensures forall h ::
              HourCount(ps[..i + 1], h, offsetMs) ==
              HourCount(ps[..i], h, offsetMs) + (if HourOf(ps[i].start, offsetMs) == Some(h) then 1 else 0)
    ensures Dated(ps[..i + 1], offsetMs) == Dated(ps[..i], offsetMs) + (if HourOf(ps[i].start, offsetMs).Some? then 1 else 0)
  {
    assert ps[..i + 1][..i] == ps[..i];
  }

  lemma {:induction false} SumIncrement(s: seq<int>, h: nat)
    requires h < |s|
    ensures Sum(s[h := s[h] + 1]) == Sum(s) + 1
    decreases |s|
  {
    if h > 0 {
      SumIncrement(s[1..], h - 1);
      assert s[h := s[h] + 1][1..] == s[1..][h - 1 := s[h] + 1];
    }
  }

  lemma {:induction false} SumZeros(n: nat)
    ensures Sum(seq(n, _ => 0)) == 0
  {
    if n > 0 {
      SumZeros(n - 1);
      assert seq(n, _ => 0)[1..] == seq(n - 1, _ => 0);
    }
  }

  /** `generateHeatmapData`'s counting: 24 buckets, bucket `h` holds the number of programmes
      starting in hour `h`, and the buckets add up to the number of programmes with a valid start
      (an invalid date is counted under the key `NaN`, outside the buckets). */
  method HourCounts(ps: seq<Program>, offsetMs: int) returns (counts: seq<int>)
    ensures |counts| == 24
    ensures forall h :: 0 <= h < 24 ==> counts[h] == HourCount(ps, h, offsetMs)
    ensures Sum(counts) == Dated(ps, offsetMs)
  {
    var a := new int[24](_ => 0);
    SumZeros(24);
    assert a[..] == seq(24, _ => 0);
    var i := 0;
    while i < |ps|
      invariant 0 <= i <= |ps|
      invariant forall h :: 0 <= h < 24 ==> a[h] == HourCount(ps[..i], h, offsetMs)
      invariant Sum(a[..]) == Dated(ps[..i], offsetMs)
    {
      HourStep(ps, i, offsetMs);
      var hour := HourOf(ps[i].start, offsetMs);
      if hour.Some? {
        var h := hour.value;
        SumIncrement(a[..], h);
        a[h] := a[h] + 1;
      }
      i := i + 1;
    }
    assert ps[..i] == ps;
    counts := a[..];
  }

  /** When every start is a valid date, the buckets add up to the number of programmes. */
  lemma {:induction false} AllDatedCounted(ps: seq<Program>, offsetMs: int)
    requires forall i :: 0 <= i < |ps| ==> HourOf(ps[i].start, offsetMs).Some?
    ensures Dated(ps, offsetMs) == |ps|
    decreases |ps|
  {
    if ps != [] {
      AllDatedCounted(ps[..|ps| - 1], offsetMs);
    }
  }

  // ---------------------------------------------------------------------------
  // Flattening the parsed tree

  /** The XML parser gives a single child as an object and several as an array. */
  datatype OneOrMany<T> = One(item: T) | Many(items: seq<T>)

  /** `Array.isArray(x) ? x : [x]`. */
  function AsList<T>(x: OneOrMany<T>): (r: seq<T>)
    ensures x.One? ==> r == [x.item]
    ensures x.Many? ==> r == x.items
  {
    match x
    case One(item) => [item]
    case Many(items) => items
  }

  /** A `<prog>` element: its title and description children and its `ft`/`to` attributes. */
  datatype Prog = Prog(title: Option<string>, desc: Option<string>, ft: Option<string>, to: Option<string>)

  /** A `<station>` element: its `id` attribute, its name and its `<progs>` children. */
  datatype Station = Station(id: Option<string>, name: Option<string>, progs: Option<OneOrMany<Prog>>)

  datatype Fetched = Failed(message: string) | Parsed(programs: seq<Program>)

  /** `value || fallback` on an optional string: a missing or empty value gives the fallback. */
  function OrElse(value: Option<string>, fallback: string): (r: string)
    ensures value.Some? && value.value != "" ==> r == value.value
    ensures value.None? || value.value == "" ==> r == fallback
  {
    if value.Some? && value.value != "" then value.value else fallback
  }

  /** `parseInt(attr) * 1000`, with no radix given: seconds to milliseconds; `None` for `NaN`. */
  function Millis(attr: Option<string>): (ms: Option<int>)
    ensures ms.Some? ==> attr.Some? && ParseIntAnyRadix(attr.value).Some? && ms.value == ParseIntAnyRadix(attr.value).value * 1000
    ensures attr.Some? && ParseIntAnyRadix(attr.value).Some? ==> ms.Some?
  {
    if attr.None? then None
    else match ParseIntAnyRadix(attr.value)
      case Some(v) => Some(v * 1000)
      case None => None
  }

  function StationId(st: Station): string
  {
    OrElse(st.id, "")
  }

  /** The station name, falling back to the id. */
  function StationName(st: Station): string
  {
    OrElse(st.name, StationId(st))
  }

  function ProgList(st: Station): seq<Prog>
  {
    if st.progs.Some? then AsList(st.progs.value) else []
  }

  function ToProgram(st: Station, p: Prog): Program
  {
    Program(StationId(st), StationName(st), OrElse(p.title, ""), OrElse(p.desc, ""), Millis(p.ft), Millis(p.to))
  }

  /** The programmes of one station: exactly one per `<prog>`, in order, each tagged with the
      station's id and name. */
  function StationPrograms(st: Station): (r: seq<Program>)
    ensures |r| == |ProgList(st)|
    ensures forall k :: 0 <= k < |r| ==>
      r[k].stationId == StationId(st) && r[k].stationName == StationName(st) &&
      r[k].title == OrElse(ProgList(st)[k].title, "") && r[k].desc == OrElse(ProgList(st)[k].desc, "") &&
      r[k].start == Millis(ProgList(st)[k].ft) && r[k].end == Millis(ProgList(st)[k].to)
  {
    var ps := ProgList(st);
    seq(|ps|, k requires 0 <= k < |ps| => ToProgram(st, ps[k]))
  }

  /** The programmes of all stations, station by station. */
  function AllPrograms(ss: seq<Station>): seq<Program>
  {
    if ss == [] then [] else AllPrograms(ss[..|ss| - 1]) + StationPrograms(ss[|ss| - 1])
  }

  function ProgCount(ss: seq<Station>): nat
  {
    if ss == [] then 0 else ProgCount(ss[..|ss| - 1]) + |ProgList(ss[|ss| - 1])|
  }

  /** The list has one programme per `<prog>` element of the whole tree. */
  lemma {:induction false} AllProgramsLength(ss: seq<Station>)
    ensures |AllPrograms(ss)| == ProgCount(ss)
    decreases |ss|
  {
    if ss != [] {
      AllProgramsLength(ss[..|ss| - 1]);
    }
  }

  /** Flattening two runs of stations is flattening each and concatenating. */
  lemma {:induction false} AllProgramsAppend(ss: seq<Station>, tt: seq<Station>)
    ensures AllPrograms(ss + tt) == AllPrograms(ss) + AllPrograms(tt)
    decreases |tt|
  {
    if tt == [] {
      assert ss + tt == ss;
    } else {
      var init, last := tt[..|tt| - 1], tt[|tt| - 1];
      assert (ss + tt)[..|ss + tt| - 1] == ss + init;
      assert (ss + tt)[|ss + tt| - 1] == last;
      AllProgramsAppend(ss, init);
      var a, b, c := AllPrograms(ss), AllPrograms(init), StationPrograms(last);
      assert AllPrograms(ss + tt) == (a + b) + c;
      assert AllPrograms(tt) == b + c;
      assert (a + b) + c == a + (b + c);
    }
  }

  /** The flattening loop of `fetchRadikoData`: a missing `stations` node is an error; otherwise
      every station's programmes, in document order. */
  method Flatten(stations: Option<OneOrMany<Station>>) returns (res: Fetched)
    ensures stations.None? ==> res.Failed?
    ensures stations.Some? ==> res == Parsed(AllPrograms(AsList(stations.value)))
  {
    if stations.None? {
      return Failed("no programme data found");
    }
    var stationArray := AsList(stations.value);
    var parsed: seq<Program> := [];
    var i := 0;
    while i < |stationArray|
      invariant 0 <= i <= |stationArray|
      invariant parsed == AllPrograms(stationArray[..i])
    {
      var station := stationArray[i];
      assert stationArray[..i + 1][..i] == stationArray[..i];
      var progArray := ProgList(station);
      var j := 0;
      while j < |progArray|
        invariant 0 <= j <= |progArray|
        invariant parsed == AllPrograms(stationArray[..i]) + StationPrograms(station)[..j]
      {
        assert StationPrograms(station)[..j + 1] == StationPrograms(station)[..j] + [ToProgram(station, progArray[j])];
        parsed := parsed + [ToProgram(station, progArray[j])];
        j := j + 1;
      }
      assert StationPrograms(station)[..j] == StationPrograms(station);
      i := i + 1;
    }
    assert stationArray[..i] == stationArray;
    return Parsed(parsed);
  }
}
