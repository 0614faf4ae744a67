/** Parsing the Cookie header, and forwarding it with the later pairs of a repeated name left out
    (`_parse_cookie_pairs`, `_deduplicate_cookie_header`). What is printed is the cookie-string of
    section 4.2.1 of RFC 6265: pairs joined by a semicolon and a space. */
module Cookies {
  import opened Wrappers

  datatype Pair = Pair(name: string, value: string)

  // ---- Strings ----

  /** What `str.strip` removes. */
  predicate IsSpace(c: char) {
    var code := c as int;
    || 0x09 <= code <= 0x0d || 0x1c <= code <= 0x20 || code == 0x85 || code == 0xa0 || code == 0x1680
    || 0x2000 <= code <= 0x200a || code == 0x2028 || code == 0x2029 || code == 0x202f || code == 0x205f || code == 0x3000
  }

  function StripLeft(s: string): (r: string)
    ensures r != "" ==> !IsSpace(r[0])
  {
    if s == "" then "" else if IsSpace(s[0]) then StripLeft(s[1..]) else s
  }

  function StripRight(s: string): (r: string)
    ensures r != "" ==> s != "" && r[0] == s[0] && !IsSpace(r[|r| - 1])
  {
    if s == "" then "" else if IsSpace(s[|s| - 1]) then StripRight(s[..|s| - 1]) else s
  }

  function Strip(s: string): (r: string)
    ensures r != "" ==> !IsSpace(r[0]) && !IsSpace(r[|r| - 1])
  {
    StripRight(StripLeft(s))
  }

  /** Where `c` is first, or the length. */
  function IndexOf(s: string, c: char): (i: nat)
    ensures i <= |s| && (i < |s| ==> s[i] == c)
    ensures forall k | 0 <= k < i :: s[k] != c
  {
    if s == "" || s[0] == c then 0 else 1 + IndexOf(s[1..], c)
  }

  function Split(s: string): (parts: seq<string>)
    ensures |parts| > 0
    decreases |s|
  {
    var i := IndexOf(s, ';');
    if i == |s| then [s] else [s[..i]] + Split(s[i + 1..])
  }

  lemma {:induction false} StripLeftAddsNothing(s: string, c: char)
    requires c !in s
    ensures c !in StripLeft(s)
  {
    if s != "" && IsSpace(s[0]) {
      StripLeftAddsNothing(s[1..], c);
    }
  }

  lemma {:induction false} StripRightAddsNothing(s: string, c: char)
    requires c !in s
    ensures c !in StripRight(s)
  {
    if s != "" && IsSpace(s[|s| - 1]) {
      StripRightAddsNothing(s[..|s| - 1], c);
    }
  }

  // ---- What splitting and stripping are ----

  function Rejoined(parts: seq<string>): string {
    if parts == [] then ""
    else if |parts| == 1 then parts[0]
    else parts[0] + ";" + Rejoined(parts[1..])
  }

  /** The parts are what the semicolons separate: none has one, and with one between any two they are
      the text again. */
  lemma {:induction false} SplitTells(s: string)
    ensures Rejoined(Split(s)) == s && forall k | 0 <= k < |Split(s)| :: ';' !in Split(s)[k]
    decreases |s|
  {
    var i := IndexOf(s, ';');
    if i < |s| {
      SplitTells(s[i + 1..]);
      assert Split(s)[1..] == Split(s[i + 1..]);
      assert s == s[..i] + ";" + s[i + 1..];
    }
  }

  /** The whitespace of Unicode and the four separators 0x1c to 0x1f. */
  const SPACES := "\t\n\U{0b}\U{0c}\r\U{1c}\U{1d}\U{1e}\U{1f} \U{85}\U{a0}\U{1680}\U{2000}\U{2001}\U{2002}\U{2003}\U{2004}\U{2005}\U{2006}\U{2007}\U{2008}\U{2009}\U{200a}\U{2028}\U{2029}\U{202f}\U{205f}\U{3000}"

  lemma SpacesAre(c: char)
    ensures IsSpace(c) <==> c in SPACES
  {
  }

  ghost predicate AllSpaces(s: string) {
    forall k | 0 <= k < |s| :: IsSpace(s[k])
  }

  /** The text between the outer spaces. */
  ghost predicate IsStripped(s: string, text: string) {
    && (exists left, right :: s == left + text + right && AllSpaces(left) && AllSpaces(right))
    && (text != "" ==> !IsSpace(text[0]) && !IsSpace(text[|text| - 1]))
  }

  lemma {:induction false} StripLeftTells(s: string) returns (left: string)
    ensures s == left + StripLeft(s) && AllSpaces(left)
  {
    left := "";
    if s != "" && IsSpace(s[0]) {
      var rest := StripLeftTells(s[1..]);
      left := [s[0]] + rest;
      assert s == [s[0]] + s[1..];
    }
  }

  lemma {:induction false} StripRightTells(s: string) returns (right: string)
    ensures s == StripRight(s) + right && AllSpaces(right)
  {
    right := "";
    if s != "" && IsSpace(s[|s| - 1]) {
      var init, c := s[..|s| - 1], s[|s| - 1];
      var rest := StripRightTells(init);
      SpaceBehind(init, StripRight(init), rest, c);
      right := rest + [c];
      assert s == init + [c];
    }
  }

  lemma SpaceBehind(init: string, text: string, rest: string, c: char)
    requires init == text + rest && AllSpaces(rest) && IsSpace(c)
    ensures init + [c] == text + (rest + [c]) && AllSpaces(rest + [c])
  {
  }

  lemma StripTells(s: string)
    ensures IsStripped(s, Strip(s))
  {
    var left := StripLeftTells(s);
    var right := StripRightTells(StripLeft(s));
    assert s == left + Strip(s) + right;
  }

  // ---- Parsing and printing ----

  function ParsePart(part: string): Option<Pair> {
    Partition(Strip(part))
  }

  function Partition(text: string): Option<Pair> {
    var i := IndexOf(text, '=');
    if i == |text| || i == 0 then None else Some(Pair(text[..i], text[i + 1..]))
  }

  function ParseParts(parts: seq<string>): seq<Pair> {
    if parts == [] then []
    else
      Found(parts[0]) + ParseParts(parts[1..])
  }

  function Found(part: string): seq<Pair> {
    var pair := ParsePart(part);
    if pair.Some? then [pair.value] else []
  }

  function Parse(header: Option<string>): seq<Pair> {
    if header.None? || header.value == "" then [] else ParseParts(Split(header.value))
  }

  function Text(p: Pair): string {
    p.name + "=" + p.value
  }

  function Join(pairs: seq<Pair>): string {
    if pairs == [] then ""
    else if |pairs| == 1 then Text(pairs[0])
    else Text(pairs[0]) + "; " + Join(pairs[1..])
  }

  function Names(pairs: seq<Pair>): set<string> {
    set p | p in pairs :: p.name
  }

  /** Each pair whose name no earlier pair has. */
  function FirstOccurrences(pairs: seq<Pair>): seq<Pair> {
    if pairs == [] then []
    else
      var last := |pairs| - 1;
      FirstOccurrences(pairs[..last]) + if pairs[last].name in Names(pairs[..last]) then [] else [pairs[last]]
  }

  function Deduplicate(header: Option<string>): Option<string> {
    var pairs := Parse(header);
    if pairs == [] then None else Some(Join(FirstOccurrences(pairs)))
  }

  /** A part is a pair if something stands before its first "=": the name, and what follows is the value. */
  ghost predicate IsPairOf(part: string, p: Pair) {
    IsStripped(part, p.name + "=" + p.value) && p.name != "" && '=' !in p.name
  }

  ghost predicate IsNoPair(part: string) {
    exists text :: IsStripped(part, text) && ('=' !in text || text[0] == '=')
  }

  lemma PartTells(part: string)
    ensures match ParsePart(part)
            case Some(p) => IsPairOf(part, p)
            case None => IsNoPair(part)
  {
    var text := Strip(part);
    var i := IndexOf(text, '=');
    StripTells(part);
    if ParsePart(part).Some? {
      assert text == text[..i] + "=" + text[i + 1..];
    }
  }

  ghost predicate Increasing(places: seq<nat>) {
    forall a, b | 0 <= a < b < |places| :: places[a] < places[b]
  }

  /** The pairs are those of the parts at these places, in their order ... */
  ghost predicate PairsAt(parts: seq<string>, places: seq<nat>, pairs: seq<Pair>) {
    |places| == |pairs| && forall a | 0 <= a < |places| :: places[a] < |parts| && IsPairOf(parts[places[a]], pairs[a])
  }

  /** ... and no other part from `start` on is a pair. */
  ghost predicate NoPairElsewhere(parts: seq<string>, start: nat, places: seq<nat>) {
    && (forall a | 0 <= a < |places| :: start <= places[a])
    && forall k | start <= k < |parts| && k !in places :: IsNoPair(parts[k])
  }

  lemma FirstPlace(parts: seq<string>, start: nat, places: seq<nat>)
    requires start < |parts| && Increasing(places) && NoPairElsewhere(parts, start + 1, places)
    ensures Increasing([start] + places) && NoPairElsewhere(parts, start, [start] + places)
  {
    var more := [start] + places;
    forall k | start <= k < |parts| && k !in more
      ensures IsNoPair(parts[k])
    {
      assert more[0] == start;
      assert k in places ==> k in more;
    }
  }

  lemma FirstPair(parts: seq<string>, start: nat, places: seq<nat>, pairs: seq<Pair>, p: Pair)
    requires start < |parts| && IsPairOf(parts[start], p) && PairsAt(parts, places, pairs)
    ensures PairsAt(parts, [start] + places, [p] + pairs)
  {
    var more, all := [start] + places, [p] + pairs;
    forall a | 0 <= a < |more|
      ensures more[a] < |parts| && IsPairOf(parts[more[a]], all[a])
    {
      if a > 0 {
        assert more[a] == places[a - 1] && all[a] == pairs[a - 1];
      }
    }
  }

  lemma {:induction false} PartsTell(parts: seq<string>, start: nat) returns (places: seq<nat>)
    requires start <= |parts|
    ensures PairsAt(parts, places, ParseParts(parts[start..])) && Increasing(places) && NoPairElsewhere(parts, start, places)
    decreases |parts| - start
  {
    places := [];
    if start < |parts| {
      var later := PartsTell(parts, start + 1);
      ParsePartsNext([], parts, start);
      PartTells(parts[start]);
      assert parts[start..][0] == parts[start] && parts[start..][1..] == parts[start + 1..];
      if ParsePart(parts[start]).Some? {
        FirstPlace(parts, start, later);
        FirstPair(parts, start, later, ParseParts(parts[start + 1..]), ParsePart(parts[start]).value);
        places := [start] + later;
      } else {
        places := later;
        assert ParseParts(parts[start..]) == ParseParts(parts[start + 1..]);
      }
    }
  }

  /** A header's pairs are those of the parts between its semicolons. */
  lemma ParseTells(header: Option<string>) returns (places: seq<nat>)
    ensures header == None ==> Parse(header) == []
    ensures header.Some? ==>
      PairsAt(Split(header.value), places, Parse(header)) && Increasing(places) && NoPairElsewhere(Split(header.value), 0, places)
  {
    places := [];
    if header.Some? && header.value != "" {
      places := PartsTell(Split(header.value), 0);
      assert Split(header.value)[0..] == Split(header.value);
    } else if header.Some? {
      assert Split("") == [""];
      PartTells("");
    }
  }

  lemma ParsePartsNext(pairs: seq<Pair>, parts: seq<string>, k: nat)
    requires k < |parts|
    ensures pairs + ParseParts(parts[k..]) == (pairs + Found(parts[k])) + ParseParts(parts[k + 1..])
  {
    assert parts[k..][0] == parts[k] && parts[k..][1..] == parts[k + 1..];
  }

  method ParseCookiePairs(header: Option<string>) returns (pairs: seq<Pair>)
    ensures pairs == Parse(header)
  {
    pairs := [];
    if header.None? || header.value == "" {
      return;
    }
    var parts := Split(header.value);
    for k := 0 to |parts|
      invariant pairs + ParseParts(parts[k..]) == ParseParts(parts)
    {
      ParsePartsNext(pairs, parts, k);
      var parsed := ParsePart(parts[k]);
      if parsed.Some? {
        pairs := pairs + [parsed.value];
      } else {
        assert pairs == pairs + Found(parts[k]);
      }
    }
    assert parts[|parts|..] == [];
  }

  lemma NamesNext(pairs: seq<Pair>)
    requires pairs != []
    ensures Names(pairs) == Names(pairs[..|pairs| - 1]) + {pairs[|pairs| - 1].name}
  {
    assert pairs == pairs[..|pairs| - 1] + [pairs[|pairs| - 1]];
  }

  lemma FirstOccurrencesNext(pairs: seq<Pair>, k: nat)
    requires k < |pairs|
    ensures Names(pairs[..k + 1]) == Names(pairs[..k]) + {pairs[k].name}
    ensures FirstOccurrences(pairs[..k + 1]) == FirstOccurrences(pairs[..k]) + if pairs[k].name in Names(pairs[..k]) then [] else [pairs[k]]
  {
    assert pairs[..k + 1][..k] == pairs[..k];
    NamesNext(pairs[..k + 1]);
  }

  method DeduplicateCookieHeader(header: Option<string>) returns (forwarded: Option<string>)
    ensures forwarded == Deduplicate(header)
  {
    var pairs := ParseCookiePairs(header);
    if pairs == [] {
      return None;
    }
    var seen, kept := {}, [];
    for k := 0 to |pairs|
      invariant seen == Names(pairs[..k]) && kept == FirstOccurrences(pairs[..k])
    {
      var p := pairs[k];
      FirstOccurrencesNext(pairs, k);
      if p.name !in seen {
        seen := seen + {p.name};
        kept := kept + [p];
      }
    }
    assert pairs[..|pairs|] == pairs;
    forwarded := Some(Join(kept));
  }

  // ---- Round trips ----

  /** The pairs that parsing can give. */
  predicate WellFormed(p: Pair) {
    && p.name != "" && ';' !in p.name && '=' !in p.name && ';' !in p.value
    && !IsSpace(p.name[0]) && (p.value != "" ==> !IsSpace(p.value[|p.value| - 1]))
  }

  ghost predicate AllWellFormed(pairs: seq<Pair>) {
    forall p | p in pairs :: WellFormed(p)
  }

  lemma PartIsWellFormed(part: string)
    requires ';' !in part && ParsePart(part).Some?
    ensures WellFormed(ParsePart(part).value)
  {
    var text := Strip(part);
    StripLeftAddsNothing(part, ';');
    StripRightAddsNothing(StripLeft(part), ';');
    var i := IndexOf(text, '=');
    var p := ParsePart(part).value;
    assert p.name == text[..i] && p.value == text[i + 1..];
    assert p.name[0] == text[0];
    if p.value != "" {
      assert p.value[|p.value| - 1] == text[|text| - 1];
    }
  }

  lemma {:induction false} PartsAreWellFormed(parts: seq<string>)
    requires forall k | 0 <= k < |parts| :: ';' !in parts[k]
    ensures AllWellFormed(ParseParts(parts))
  {
    if parts != [] {
      if ParsePart(parts[0]).Some? {
        PartIsWellFormed(parts[0]);
      }
      PartsAreWellFormed(parts[1..]);
    }
  }

  lemma StripKeeps(s: string)
    requires s != "" && !IsSpace(s[0]) && !IsSpace(s[|s| - 1])
    ensures Strip(s) == s
  {
  }

  lemma TextIsStripped(p: Pair, part: string)
    requires WellFormed(p) && (part == Text(p) || part == " " + Text(p))
    ensures Strip(part) == Text(p)
  {
    var text := Text(p);
    assert text[0] == p.name[0];
    assert text[|text| - 1] == if p.value == "" then '=' else p.value[|p.value| - 1];
    StripKeeps(text);
    if part != text {
      assert part[0] == ' ' && part[1..] == text;
      assert StripLeft(part) == StripLeft(text);
    }
  }

  lemma TextPartitions(p: Pair)
    requires WellFormed(p)
    ensures Partition(Text(p)) == Some(p)
  {
    PartitionsAt(p.name, p.value);
  }

  lemma PartitionsAt(name: string, value: string)
    requires '=' !in name && name != ""
    ensures Partition(name + "=" + value) == Some(Pair(name, value))
  {
    var text, rest := name + "=" + value, "=" + value;
    assert text == name + rest;
    IndexInConcatenation(name, rest, '=');
    assert rest[0] == '=';
    assert IndexOf(text, '=') == |name|;
    assert text[..|name|] == name && text[|name| + 1..] == value;
  }

  lemma TextParsesBack(p: Pair, part: string)
    requires WellFormed(p) && (part == Text(p) || part == " " + Text(p))
    ensures ParsePart(part) == Some(p)
  {
    TextIsStripped(p, part);
    TextPartitions(p);
  }

  lemma {:induction false} IndexInConcatenation(a: string, b: string, c: char)
    requires c !in a
    ensures IndexOf(a + b, c) == |a| + IndexOf(b, c)
  {
    if a == "" {
      assert a + b == b;
    } else {
      assert (a + b)[0] == a[0] && (a + b)[1..] == a[1..] + b;
      IndexInConcatenation(a[1..], b, c);
    }
  }

  lemma SplitAtSemicolon(a: string, rest: string)
    requires ';' !in a
    ensures Split(a) == [a]
    ensures Split(a + ";" + rest) == [a] + Split(rest)
  {
    IndexInConcatenation(a, "", ';');
    assert a + "" == a;
    IndexInConcatenation(a, ";" + rest, ';');
    var s := a + ";" + rest;
    assert s == a + (";" + rest);
    assert s[..|a|] == a && s[|a| + 1..] == rest;
  }

  /** One pair and what follows its semicolon. */
  lemma FirstPairParsesBack(p: Pair, lead: string, rest: string)
    requires WellFormed(p) && (lead == "" || lead == " ")
    ensures ParseParts(Split(lead + Text(p))) == [p]
    ensures ParseParts(Split(lead + Text(p) + ";" + rest)) == [p] + ParseParts(Split(rest))
  {
    var part := lead + Text(p);
    assert lead == "" ==> part == Text(p);
    TextParsesBack(p, part);
    SplitAtSemicolon(part, rest);
    assert [part][1..] == [];
    assert ([part] + Split(rest))[1..] == Split(rest);
  }

  /** The printed list is the printed pairs, with a semicolon and a space between any two. */
  lemma {:induction false} JoinTells(pairs: seq<Pair>, k: nat)
    requires 0 < k < |pairs|
    ensures Join(pairs) == Join(pairs[..k]) + "; " + Join(pairs[k..])
    ensures Join([pairs[0]]) == pairs[0].name + "=" + pairs[0].value
    decreases |pairs|
  {
    if k == 1 {
      assert pairs[..1] == [pairs[0]];
    } else {
      JoinTells(pairs[1..], k - 1);
      assert pairs[..k][1..] == pairs[1..][..k - 1] && pairs[1..][k - 1..] == pairs[k..];
      var first, middle, last := Text(pairs[0]), Join(pairs[..k][1..]), Join(pairs[k..]);
      assert first + "; " + (middle + "; " + last) == (first + "; " + middle) + "; " + last;
    }
  }

  lemma JoinBreaksAtSemicolon(lead: string, text: string, rest: string)
    ensures lead + (text + "; " + rest) == lead + text + ";" + (" " + rest)
  {
  }

  /** A joined list parses back, also behind the space that follows a semicolon. */
  lemma {:induction false} JoinParsesBack(pairs: seq<Pair>, lead: string)
    requires pairs != [] && AllWellFormed(pairs) && (lead == "" || lead == " ")
    ensures ParseParts(Split(lead + Join(pairs))) == pairs
    decreases |pairs|
  {
    assert pairs[0] in pairs;
    if |pairs| == 1 {
      FirstPairParsesBack(pairs[0], lead, "");
      assert pairs == [pairs[0]];
    } else {
      JoinParsesBack(pairs[1..], " ");
      PairBeforeParsed(pairs[0], pairs[1..], lead, Join(pairs[1..]));
      assert [pairs[0]] + pairs[1..] == pairs;
    }
  }

  lemma PairBeforeParsed(p: Pair, others: seq<Pair>, lead: string, tail: string)
    requires WellFormed(p) && (lead == "" || lead == " ") && ParseParts(Split(" " + tail)) == others
    ensures ParseParts(Split(lead + (Text(p) + "; " + tail))) == [p] + others
  {
    FirstPairParsesBack(p, lead, " " + tail);
    JoinBreaksAtSemicolon(lead, Text(p), tail);
  }

  lemma ParsedPairsAreWellFormed(header: Option<string>)
    ensures AllWellFormed(Parse(header))
  {
    if header.Some? && header.value != "" {
      SplitTells(header.value);
      PartsAreWellFormed(Split(header.value));
    }
  }

  lemma WellFormedPairsParseBack(pairs: seq<Pair>)
    requires AllWellFormed(pairs)
    ensures Parse(Some(Join(pairs))) == pairs
  {
    if pairs != [] {
      JoinParsesBack(pairs, "");
      assert "" + Join(pairs) == Join(pairs);
      assert Join(pairs) != "";
    }
  }

  /** Some header parses to these pairs exactly if they are all well formed. */
  lemma ParsedIffWellFormed(pairs: seq<Pair>)
    ensures AllWellFormed(pairs) <==> exists header :: Parse(header) == pairs
  {
    if AllWellFormed(pairs) {
      WellFormedPairsParseBack(pairs);
    }
    if header :| Parse(header) == pairs {
      ParsedPairsAreWellFormed(header);
    }
  }

  // ---- Deduplication ----

  ghost predicate DistinctNames(pairs: seq<Pair>) {
    forall i, j | 0 <= i < j < |pairs| :: pairs[i].name != pairs[j].name
  }

  lemma {:induction false} FirstOccurrencesKeepTheNames(pairs: seq<Pair>)
    ensures Names(FirstOccurrences(pairs)) == Names(pairs)
    ensures forall p | p in FirstOccurrences(pairs) :: p in pairs
  {
    if pairs != [] {
      var last := |pairs| - 1;
      var earlier := FirstOccurrences(pairs[..last]);
      FirstOccurrencesKeepTheNames(pairs[..last]);
      NamesNext(pairs);
      if pairs[last].name !in Names(pairs[..last]) {
        assert (earlier + [pairs[last]])[..|earlier|] == earlier;
        NamesNext(earlier + [pairs[last]]);
      } else {
        assert FirstOccurrences(pairs) == earlier;
      }
    }
  }

  /** Every name is kept once. */
  lemma {:induction false} FirstOccurrencesKeepEachName(pairs: seq<Pair>)
    ensures DistinctNames(FirstOccurrences(pairs)) && Names(FirstOccurrences(pairs)) == Names(pairs)
  {
    FirstOccurrencesKeepTheNames(pairs);
    if pairs != [] {
      var last := |pairs| - 1;
      var earlier := FirstOccurrences(pairs[..last]);
      FirstOccurrencesKeepEachName(pairs[..last]);
      forall i | 0 <= i < |earlier|
        ensures earlier[i].name in Names(pairs[..last])
      {
        assert earlier[i] in earlier;
      }
    }
  }

  /** The pair that is kept for a name is the first that has it. */
  lemma {:induction false} FirstOccurrencesAreFirst(pairs: seq<Pair>, k: nat)
    requires k < |pairs|
    ensures pairs[k].name !in Names(pairs[..k]) ==> pairs[k] in FirstOccurrences(pairs)
    decreases |pairs|
  {
    var last := |pairs| - 1;
    if k < last {
      assert pairs[..last][..k] == pairs[..k];
      FirstOccurrencesAreFirst(pairs[..last], k);
    }
  }

  lemma {:induction false} DistinctNamesAreAllFirst(pairs: seq<Pair>)
    requires DistinctNames(pairs)
    ensures FirstOccurrences(pairs) == pairs
  {
    if pairs != [] {
      var last := |pairs| - 1;
      DistinctNamesAreAllFirst(pairs[..last]);
      assert pairs == pairs[..last] + [pairs[last]];
    }
  }

  /** Reading the forwarded header gives the first occurrences of what was received, each name once;
      forwarding it again changes nothing. */
  lemma DeduplicationRoundTrip(header: Option<string>)
    ensures Parse(Deduplicate(header)) == FirstOccurrences(Parse(header))
    ensures DistinctNames(Parse(Deduplicate(header)))
    ensures Deduplicate(Deduplicate(header)) == Deduplicate(header)
  {
    var pairs := Parse(header);
    var kept := FirstOccurrences(pairs);
    ParsedPairsAreWellFormed(header);
    FirstOccurrencesKeepTheNames(pairs);
    FirstOccurrencesKeepEachName(pairs);
    DistinctNamesAreAllFirst(kept);
    if pairs != [] {
      assert pairs[0].name in Names(pairs);
      WellFormedPairsParseBack(kept);
    }
  }
}
