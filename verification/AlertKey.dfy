/** Alert ids: canonical encoding of the key tags, sanitized path segments, and
    the prefix under which a rule's alerts are listed. */
module AlertKey {
  import opened Domain

  // ---------------------------------------------------------------------------
  // Text.

  predicate IsSpace(c: char) {
    c == ' ' || '\t' <= c <= '\r' || c as int == 0x85 || c as int == 0xA0
  }

  /** `s` without surrounding white space. */
  function Trim(s: string): string {
    if s != "" && IsSpace(s[0]) then Trim(s[1..])
    else if s != "" && IsSpace(s[|s| - 1]) then Trim(s[..|s| - 1])
    else s
  }

  function LowerChar(c: char): char {
    if 'A' <= c <= 'Z' then c + 32 as char else c
  }

  function Lower(s: string): string {
    seq(|s|, i requires 0 <= i < |s| => LowerChar(s[i]))
  }

  /** The characters that sanitizing keeps, up to case. */
  predicate Allowed(c: char) {
    'a' <= c <= 'z' || 'A' <= c <= 'Z' || '0' <= c <= '9' || c == '-' || c == '_' || c == '.'
  }

  function SanitizeChar(c: char): char {
    if Allowed(c) then LowerChar(c) else '_'
  }

  /** A path segment of an alert id. */
  function Sanitized(raw: string): string {
    var trimmed := Trim(raw);
    if trimmed == "" then "_" else seq(|trimmed|, i requires 0 <= i < |trimmed| => SanitizeChar(trimmed[i]))
  }

  /** Trimming takes white space off both ends, all of it and nothing else. */
  lemma {:induction false} TrimIsMiddle(s: string) returns (first: nat, end: nat)
    ensures first <= end <= |s| && Trim(s) == s[first..end]
    ensures forall i :: 0 <= i < |s| && !(first <= i < end) ==> IsSpace(s[i])
    ensures first < end ==> !IsSpace(s[first]) && !IsSpace(s[end - 1])
    decreases |s|
  {
    hide IsSpace;
    if s != "" && IsSpace(s[0]) {
      var a, b := TrimIsMiddle(s[1..]);
      first, end := a + 1, b + 1;
      assert s[1..][a..b] == s[first..end];
      assert forall i :: 1 <= i < |s| ==> s[1..][i - 1] == s[i];
    } else if s != "" && IsSpace(s[|s| - 1]) {
      first, end := TrimIsMiddle(s[..|s| - 1]);
      assert s[..|s| - 1][first..end] == s[first..end];
    } else {
      first, end := 0, |s|;
      assert s[0..|s|] == s;
    }
  }

  /** Small letters, digits and three marks stay, capital letters become small, and anything else is underlined. */
  predicate Cleaned(c: char, r: char) {
    if 'a' <= c <= 'z' || '0' <= c <= '9' || c == '-' || c == '_' || c == '.' then r == c
    else if 'A' <= c <= 'Z' then r as int - 'a' as int == c as int - 'A' as int
    else r == '_'
  }

  method Sanitize(raw: string) returns (segment: string)
    ensures segment == Sanitized(raw)
    ensures Trim(raw) == "" ==> segment == "_"
    ensures Trim(raw) != "" ==> |segment| == |Trim(raw)|
    ensures Trim(raw) != "" ==> forall i :: 0 <= i < |segment| ==> Cleaned(Trim(raw)[i], segment[i])
  {
    var trimmed := Trim(raw);
    if trimmed == "" {
      return "_";
    }
    segment := "";
    for i := 0 to |trimmed|
      invariant segment == Sanitized(raw)[..i]
    {
      var c := trimmed[i];
      if 'a' <= c <= 'z' || '0' <= c <= '9' || c == '-' || c == '_' || c == '.' {
        segment := segment + [c];
      } else if 'A' <= c <= 'Z' {
        segment := segment + [c + 32 as char];
      } else {
        segment := segment + ['_'];
      }
    }
  }

  // ---------------------------------------------------------------------------
  // Sorting the key tags.

  /** Lexicographic order by character. */
  predicate AtMost(a: string, b: string) {
    a == "" || (b != "" && (a[0] < b[0] || (a[0] == b[0] && AtMost(a[1..], b[1..]))))
  }

  /** At their first difference the one text has the smaller character. */
  predicate SmallerAt(a: string, b: string, k: nat) {
    k < |a| && k < |b| && a[..k] == b[..k] && a[k] < b[k]
  }

  /** One text begins the other, or it is smaller at their first difference. */
  lemma {:induction false} AtMostIff(a: string, b: string)
    ensures AtMost(a, b) <==> a <= b || exists k: nat :: SmallerAt(a, b, k)
  {
    if a != "" && b != "" && a[0] == b[0] {
      AtMostIff(a[1..], b[1..]);
      assert a == [a[0]] + a[1..] && b == [b[0]] + b[1..];
      if k: nat :| SmallerAt(a, b, k) {
        assert a[1..][..k - 1] == a[..k][1..] && b[1..][..k - 1] == b[..k][1..];
        assert SmallerAt(a[1..], b[1..], k - 1);
      }
      if k: nat :| SmallerAt(a[1..], b[1..], k) {
        assert a[..k + 1] == [a[0]] + a[1..][..k] && b[..k + 1] == [b[0]] + b[1..][..k];
        assert SmallerAt(a, b, k + 1);
      }
    } else if a != "" && b != "" && a[0] < b[0] {
      assert SmallerAt(a, b, 0);
    }
  }

  lemma {:induction false} AtMostTotal(a: string, b: string)
    ensures AtMost(a, b) || AtMost(b, a)
    ensures AtMost(a, b) && AtMost(b, a) ==> a == b
  {
    if a != "" && b != "" && a[0] == b[0] {
      AtMostTotal(a[1..], b[1..]);
      assert a == [a[0]] + a[1..] && b == [b[0]] + b[1..];
    }
  }

  lemma {:induction false} AtMostTransitive(a: string, b: string, c: string)
    requires AtMost(a, b) && AtMost(b, c)
    ensures AtMost(a, c)
  {
    if a != "" && a[0] == b[0] == c[0] {
      AtMostTransitive(a[1..], b[1..], c[1..]);
    }
  }

  predicate Ordered(tags: seq<string>) {
    forall i {:trigger tags[i]} :: 0 < i < |tags| ==> AtMost(tags[i - 1], tags[i])
  }

  function InsertTag(tag: string, tags: seq<string>): (r: seq<string>)
    requires Ordered(tags)
    ensures Ordered(r) && multiset(r) == multiset(tags) + multiset{tag}
    ensures r != [] && (r[0] == tag || (tags != [] && r[0] == tags[0]))
  {
    if tags == [] || AtMost(tag, tags[0]) then [tag] + tags
    else
      AtMostTotal(tag, tags[0]);
      assert tags == [tags[0]] + tags[1..];
      [tags[0]] + InsertTag(tag, tags[1..])
  }

  function SortTags(tags: seq<string>): (r: seq<string>)
    ensures Ordered(r) && multiset(r) == multiset(tags)
  {
    if tags == [] then []
    else
      assert tags == [tags[0]] + tags[1..];
      InsertTag(tags[0], SortTags(tags[1..]))
  }

  lemma {:induction false} FirstIsLeast(tags: seq<string>, tag: string)
    requires Ordered(tags) && tag in tags
    ensures AtMost(tags[0], tag)
  {
    if tag == tags[0] {
      AtMostTotal(tag, tag);
    } else {
      FirstIsLeast(tags[1..], tag);
      assert AtMost(tags[0], tags[1]);
      AtMostTransitive(tags[0], tags[1], tag);
    }
  }

  lemma HeadsAgree(a: seq<string>, b: seq<string>)
    requires Ordered(a) && Ordered(b) && multiset(a) == multiset(b) && a != []
    ensures b != [] && a[0] == b[0]
  {
    assert a[0] in multiset(b);
    assert b[0] in multiset(a);
    FirstIsLeast(a, b[0]);
    FirstIsLeast(b, a[0]);
    AtMostTotal(a[0], b[0]);
  }

  /** There is one sorted arrangement of the same tags. */
  lemma {:induction false} SortedIsUnique(a: seq<string>, b: seq<string>)
    requires Ordered(a) && Ordered(b) && multiset(a) == multiset(b)
    ensures a == b
  {
    hide AtMost;
    if a == [] {
      assert |multiset(b)| == |b|;
    } else {
      HeadsAgree(a, b);
      assert a == [a[0]] + a[1..] && b == [b[0]] + b[1..];
      assert multiset(a[1..]) == multiset(a) - multiset{a[0]} == multiset(b[1..]);
      SortedIsUnique(a[1..], b[1..]);
    }
  }

  /** Copies and sorts only when the tags are out of order. */
  method SortedKeyTags(tags: seq<string>) returns (r: seq<string>)
    ensures r == SortTags(tags)
  {
    hide AtMost, SortTags;
    var i := 1;
    while i < |tags| && AtMost(tags[i - 1], tags[i])
      invariant 1 <= i && (i <= |tags| || |tags| == 0)
      invariant forall k {:trigger tags[k]} :: 0 < k < i && k < |tags| ==> AtMost(tags[k - 1], tags[k])
    {
      i := i + 1;
    }
    if i >= |tags| {
      SortedIsUnique(tags, SortTags(tags));
      return tags;
    }
    r := SortTags(tags);
  }

  // ---------------------------------------------------------------------------
  // The canonical string and the id.

  predicate HasTags(tags: seq<string>, values: map<string, string>) {
    forall tag :: tag in tags ==> tag in values
  }

  /** `tag=value` lines for the key tags, in order. */
  function Canonical(tags: seq<string>, values: map<string, string>): string
    requires HasTags(tags, values)
  {
    if tags == [] then ""
    else
      var line := tags[0] + "=" + values[tags[0]];
      if |tags| == 1 then line else line + "\n" + Canonical(tags[1..], values)
  }

  /** The alert id of an event under a rule; none when the rule has no name or a key tag is missing. */
  function Key(hash: string -> string, rule: Rule, event: Event): Option<AlertId> {
    if Trim(rule.name) == "" || !HasTags(rule.fromTags, event.tags) then None
    else
      assert forall tag :: tag in SortTags(rule.fromTags) ==> tag in multiset(SortTags(rule.fromTags));
      Some("rule/" + Sanitized(rule.name) + "/" + Sanitized(event.varName) + "/"
           + hash(Canonical(SortTags(rule.fromTags), event.tags)))
  }

  lemma SortKeepsTags(tags: seq<string>)
    ensures forall tag :: tag in SortTags(tags) <==> tag in tags
  {
    assert forall tag :: tag in tags <==> tag in multiset(tags);
    assert forall tag :: tag in SortTags(tags) <==> tag in multiset(SortTags(tags));
  }

  lemma {:induction false} CanonicalSplit(tags: seq<string>, values: map<string, string>, n: nat)
    requires HasTags(tags, values) && 0 < n < |tags|
    ensures Canonical(tags, values) == Canonical(tags[..n], values) + "\n" + Canonical(tags[n..], values)
  {
    var line := tags[0] + "=" + values[tags[0]];
    if n == 1 {
      assert tags[..1] == [tags[0]];
    } else {
      CanonicalSplit(tags[1..], values, n - 1);
      assert tags[1..][..n - 1] == tags[..n][1..] && tags[1..][n - 1..] == tags[n..];
    }
  }

  method BuildAlertKey(hash: string -> string, rule: Rule, event: Event) returns (id: Option<AlertId>)
    ensures id == Key(hash, rule, event)
  {
    hide Trim, Sanitized, SortTags, Canonical;
    if Trim(rule.name) == "" {
      return None;
    }
    var tags := SortedKeyTags(rule.fromTags);
    SortKeepsTags(rule.fromTags);
    for i := 0 to |tags|
      invariant forall k :: 0 <= k < i ==> tags[k] in event.tags
    {
      if tags[i] !in event.tags {
        return None;
      }
    }
    var canonical := CanonicalText(tags, event.tags);
    var ruleName := Sanitize(rule.name);
    var varName := Sanitize(event.varName);
    id := Some("rule/" + ruleName + "/" + varName + "/" + hash(canonical));
  }

  method CanonicalText(tags: seq<string>, values: map<string, string>) returns (canonical: string)
    requires HasTags(tags, values)
    ensures canonical == Canonical(tags, values)
  {
    canonical := "";
    for i := 0 to |tags|
      invariant canonical == Canonical(tags[..i], values)
    {
      if i > 0 {
        canonical := canonical + "\n";
        CanonicalSplit(tags[..i + 1], values, i);
        assert tags[..i + 1][..i] == tags[..i] && tags[..i + 1][i..] == [tags[i]];
      } else {
        assert tags[..1] == [tags[0]];
      }
      canonical := canonical + tags[i];
      canonical := canonical + "=";
      canonical := canonical + values[tags[i]];
    }
    assert tags[..|tags|] == tags;
  }

  // ---------------------------------------------------------------------------
  // When two events are the same alert.

  /** The hash is treated as free of collisions. */
  ghost predicate Injective(hash: string -> string) {
    forall a, b :: hash(a) == hash(b) ==> a == b
  }

  /** The order of the key tags in the rule does not matter. */
  lemma KeyIgnoresTagOrder(hash: string -> string, rule: Rule, event: Event, reordered: seq<string>)
    requires multiset(reordered) == multiset(rule.fromTags)
    ensures Key(hash, rule.(fromTags := reordered), event) == Key(hash, rule, event)
  {
    SortedIsUnique(SortTags(reordered), SortTags(rule.fromTags));
    SortKeepsTags(reordered);
    SortKeepsTags(rule.fromTags);
    assert HasTags(reordered, event.tags) <==> HasTags(SortTags(reordered), event.tags);
    assert HasTags(rule.fromTags, event.tags) <==> HasTags(SortTags(rule.fromTags), event.tags);
  }

  predicate NewlineFree(s: string) {
    '\n' !in s
  }

  /** What stands before the first `stop`, or before the end, is determined by the whole. */
  lemma FirstStop(stop: char, v: string, w: string, restV: string, restW: string)
    requires stop !in v && stop !in w
    requires restV == "" || restV[0] == stop
    requires restW == "" || restW[0] == stop
    requires v + restV == w + restW
    ensures v == w && restV == restW
  {
    var x := v + restV;
    assert forall i :: 0 <= i < |v| ==> x[i] == v[i] && v[i] in v;
    assert forall i :: 0 <= i < |w| ==> x[i] == w[i] && w[i] in w;
    assert restV != "" ==> x[|v|] == restV[0];
    assert restW != "" ==> x[|w|] == restW[0];
    assert |v| == |w|;
    assert v == x[..|v|] && w == x[..|v|];
    assert restV == x[|v|..] && restW == x[|v|..];
  }

  /** The canonical text of newline-free values determines them, whatever the tag names are. */
  lemma {:induction false} CanonicalInjective(tags: seq<string>, a: map<string, string>, b: map<string, string>)
    requires HasTags(tags, a) && HasTags(tags, b)
    requires forall tag :: tag in tags ==> NewlineFree(a[tag]) && NewlineFree(b[tag])
    requires Canonical(tags, a) == Canonical(tags, b)
    ensures forall tag :: tag in tags ==> a[tag] == b[tag]
  {
    if tags != [] {
      var head := tags[0] + "=";
      var restA := if |tags| == 1 then "" else "\n" + Canonical(tags[1..], a);
      var restB := if |tags| == 1 then "" else "\n" + Canonical(tags[1..], b);
      assert Canonical(tags, a) == head + (a[tags[0]] + restA);
      assert Canonical(tags, b) == head + (b[tags[0]] + restB);
      DropHead(head, a[tags[0]] + restA, b[tags[0]] + restB);
      FirstStop('\n', a[tags[0]], b[tags[0]], restA, restB);
      if |tags| > 1 {
        assert Canonical(tags[1..], a) == restA[1..] == restB[1..] == Canonical(tags[1..], b);
        CanonicalInjective(tags[1..], a, b);
      }
    }
  }

  lemma {:induction false} CanonicalAgrees(tags: seq<string>, a: map<string, string>, b: map<string, string>)
    requires HasTags(tags, a) && HasTags(tags, b)
    requires forall tag :: tag in tags ==> a[tag] == b[tag]
    ensures Canonical(tags, a) == Canonical(tags, b)
  {
    if tags != [] {
      CanonicalAgrees(tags[1..], a, b);
    }
  }

  predicate SlashFree(s: string) {
    '/' !in s
  }

  lemma SanitizedIsSlashFree(raw: string)
    ensures SlashFree(Sanitized(raw)) && Sanitized(raw) != ""
  {
    var trimmed := Trim(raw);
    assert forall i :: 0 <= i < |trimmed| ==> SanitizeChar(trimmed[i]) != '/';
  }

  /** A slash-free segment is what stands before the first slash. */
  lemma SegmentsAgree(head: string, v: string, w: string, restV: string, restW: string)
    requires SlashFree(v) && SlashFree(w)
    requires head + v + "/" + restV == head + w + "/" + restW
    ensures v == w && restV == restW
  {
    assert head + v + "/" + restV == head + (v + ("/" + restV)) && head + w + "/" + restW == head + (w + ("/" + restW));
    DropHead(head, v + ("/" + restV), w + ("/" + restW));
    FirstStop('/', v, w, "/" + restV, "/" + restW);
    DropHead("/", restV, restW);
  }

  ghost predicate NewlineFreeKey(rule: Rule, event: Event) {
    forall tag :: tag in rule.fromTags && tag in event.tags ==> NewlineFree(event.tags[tag])
  }

  /** Under one rule, two events with newline-free key values are the same alert exactly when their
      sanitized variables and all their key tag values agree. */
  lemma SameAlertIff(hash: string -> string, rule: Rule, a: Event, b: Event)
    requires Injective(hash)
    requires Key(hash, rule, a).Some? && Key(hash, rule, b).Some?
    requires NewlineFreeKey(rule, a) && NewlineFreeKey(rule, b)
    ensures Key(hash, rule, a) == Key(hash, rule, b) <==>
              && Sanitized(a.varName) == Sanitized(b.varName)
              && forall tag :: tag in rule.fromTags ==> a.tags[tag] == b.tags[tag]
  {
    hide Sanitized, Canonical;
    var tags := SortTags(rule.fromTags);
    SortKeepsTags(rule.fromTags);
    var head := "rule/" + Sanitized(rule.name) + "/";
    SanitizedIsSlashFree(a.varName);
    SanitizedIsSlashFree(b.varName);
    if Key(hash, rule, a) == Key(hash, rule, b) {
      SegmentsAgree(head, Sanitized(a.varName), Sanitized(b.varName), hash(Canonical(tags, a.tags)), hash(Canonical(tags, b.tags)));
      CanonicalInjective(tags, a.tags, b.tags);
    } else if forall tag :: tag in rule.fromTags ==> a.tags[tag] == b.tags[tag] {
      CanonicalAgrees(tags, a.tags, b.tags);
    }
  }

  /** The canonical text with a newline before every line. */
  function Lines(tags: seq<string>, values: map<string, string>): string
    requires HasTags(tags, values)
  {
    if tags == [] then "" else "\n" + tags[0] + "=" + values[tags[0]] + Lines(tags[1..], values)
  }

  lemma {:induction false} LinesText(tags: seq<string>, values: map<string, string>)
    requires tags != [] && HasTags(tags, values)
    ensures Lines(tags, values) == "\n" + Canonical(tags, values)
    decreases |tags|
  {
    var line := tags[0] + "=" + values[tags[0]];
    if |tags| == 1 {
      assert tags[1..] == [];
      assert Lines(tags, values) == "\n" + tags[0] + "=" + values[tags[0]] + "";
    } else {
      LinesText(tags[1..], values);
      assert Lines(tags, values) == "\n" + tags[0] + "=" + values[tags[0]] + ("\n" + Canonical(tags[1..], values));
    }
  }

  lemma {:induction false} LinesConcat(a: seq<string>, b: seq<string>, values: map<string, string>)
    requires HasTags(a + b, values)
    ensures HasTags(a, values) && HasTags(b, values)
    ensures Lines(a + b, values) == Lines(a, values) + Lines(b, values)
    decreases |a|
  {
    assert forall tag :: tag in a || tag in b ==> tag in a + b;
    if a == [] {
      assert a + b == b;
    } else {
      assert (a + b)[1..] == a[1..] + b;
      LinesConcat(a[1..], b, values);
    }
  }

  lemma {:induction false} LinesAgree(tags: seq<string>, a: map<string, string>, b: map<string, string>)
    requires HasTags(tags, a) && HasTags(tags, b)
    requires forall tag :: tag in tags ==> a[tag] == b[tag]
    ensures Lines(tags, a) == Lines(tags, b)
    decreases |tags|
  {
    if tags != [] {
      LinesAgree(tags[1..], a, b);
    }
  }

  /** Every tag blank but two. */
  function Pair(tags: seq<string>, x: string, vx: string, y: string, vy: string): map<string, string> {
    map tag | tag in tags :: if tag == x then vx else if tag == y then vy else ""
  }

  /** The lines of a list that holds `x`, then some tags, then `y` at its end. */
  lemma PairLines(before: seq<string>, x: string, between: seq<string>, y: string, values: map<string, string>)
    requires HasTags(before + [x] + between + [y], values)
    ensures HasTags(before, values) && HasTags(between, values) && x in values && y in values
    ensures Lines(before + [x] + between + [y], values) ==
            Lines(before, values) + ("\n" + x + "=" + values[x] + Lines(between, values) + ("\n" + y + "=" + values[y]))
  {
    hide Lines;
    var tags := before + [x] + between + [y];
    assert x in tags && y in tags && forall tag :: tag in before || tag in between ==> tag in tags;
    LinesConcat(before + [x] + between, [y], values);
    LinesConcat(before + [x], between, values);
    LinesConcat(before, [x], values);
    OneLine(x, values);
    OneLine(y, values);
  }

  lemma OneLine(tag: string, values: map<string, string>)
    requires tag in values
    ensures Lines([tag], values) == "\n" + tag + "=" + values[tag]
  {
    assert [tag][1..] == [];
  }

  /** A block moves from one value to the other. */
  lemma Shifted(head: string, p: string, mark: string, q: string)
    ensures head + "" + p + (mark + (q + mark)) == head + (p + mark) + q + (mark + "")
  {
  }

  /** A tag listed once, with another at the end of the list: what the first value holds too much of, the last can
      hold instead. */
  lemma CollidesWithLast(before: seq<string>, x: string, between: seq<string>, y: string)
    returns (a: map<string, string>, b: map<string, string>)
    requires x != y && x !in before && y !in before && x !in between
    ensures var tags := before + [x] + between + [y];
            HasTags(tags, a) && HasTags(tags, b) && a[x] != b[x] && Lines(tags, a) == Lines(tags, b)
  {
    hide Lines;
    var tags := before + [x] + between + [y];
    assert x in tags && y in tags && forall tag :: tag in before || tag in between ==> tag in tags;
    var blank := Pair(tags, x, "", y, "");
    var mark := "\n" + y + "=";
    a := Pair(tags, x, "", y, Lines(between, blank) + mark);
    b := Pair(tags, x, Lines(between, a) + mark, y, "");
    assert HasTags(tags, a) && HasTags(tags, b);
    LinesAgree(before, a, b);
    LinesAgree(between, b, blank);
    PairLines(before, x, between, y, a);
    PairLines(before, x, between, y, b);
    assert a[x] == b[y] == "" && a[y] == Lines(between, blank) + mark && b[x] == Lines(between, a) + mark;
    hide Pair;
    Shifted("\n" + x + "=", Lines(between, a), mark, Lines(between, blank));
    assert |b[x]| > 0;
  }

  /** The same with the tag listed once at the end and another at the start. */
  lemma CollidesWithFirst(x: string, between: seq<string>, y: string) returns (a: map<string, string>, b: map<string, string>)
    requires x != y && y !in between
    ensures var tags := [] + [x] + between + [y];
            HasTags(tags, a) && HasTags(tags, b) && a[y] != b[y] && Lines(tags, a) == Lines(tags, b)
  {
    hide Lines;
    var tags := [] + [x] + between + [y];
    assert x in tags && y in tags && forall tag :: tag in between ==> tag in tags;
    var blank := Pair(tags, x, "", y, "");
    var mark := "\n" + y + "=";
    a := Pair(tags, x, Lines(between, blank) + mark, y, "");
    b := Pair(tags, x, "", y, Lines(between, a) + mark);
    LinesAgree(between, b, blank);
    PairLines([], x, between, y, a);
    PairLines([], x, between, y, b);
    LinesAgree([], a, b);
    assert a[y] == b[x] == "" && a[x] == Lines(between, blank) + mark && b[y] == Lines(between, a) + mark;
    Shifted("\n" + x + "=", Lines(between, blank), mark, Lines(between, a));
    assert |b[y]| > 0;
  }

  lemma SameLinesSameText(tags: seq<string>, a: map<string, string>, b: map<string, string>)
    requires tags != [] && HasTags(tags, a) && HasTags(tags, b) && Lines(tags, a) == Lines(tags, b)
    ensures Canonical(tags, a) == Canonical(tags, b)
  {
    hide Lines, Canonical;
    LinesText(tags, a);
    LinesText(tags, b);
    DropHead("\n", Canonical(tags, a), Canonical(tags, b));
  }

  /** In order, equal tags stand together. */
  lemma {:induction false} FirstIsLeastFrom(tags: seq<string>, i: nat, j: nat)
    requires Ordered(tags) && i <= j < |tags|
    ensures AtMost(tags[i], tags[j])
  {
    FirstIsLeast(tags[i..], tags[j]);
  }

  lemma EqualsStandTogether(tags: seq<string>, i: nat, j: nat, k: nat)
    requires Ordered(tags) && i <= j <= k < |tags| && tags[i] == tags[k]
    ensures tags[j] == tags[i]
  {
    hide AtMost;
    FirstIsLeastFrom(tags, i, j);
    FirstIsLeastFrom(tags, j, k);
    AtMostTotal(tags[i], tags[j]);
  }

  /** A tag that is listed once stands at one place only. */
  lemma OncePlace(tags: seq<string>, once: string) returns (i: nat)
    requires multiset(tags)[once] == 1
    ensures i < |tags| && tags[i] == once && forall j :: 0 <= j < |tags| && j != i ==> tags[j] != once
  {
    assert once in multiset(tags);
    i :| 0 <= i < |tags| && tags[i] == once;
    forall j | 0 <= j < |tags| && j != i ensures tags[j] != once {
      var low, high := if i < j then i else j, if i < j then j else i;
      assert tags == tags[..high] + [tags[high]] + tags[high + 1..];
      assert tags[..high][low] == tags[low];
      assert multiset(tags)[tags[high]] >= multiset(tags[..high])[tags[high]] + 1;
    }
  }

  /** One tag listed once, and another, are enough for two assignments with one canonical text. */
  lemma CollidingTags(tags: seq<string>, once: string) returns (a: map<string, string>, b: map<string, string>)
    requires Ordered(tags) && |tags| >= 2 && multiset(tags)[once] == 1
    ensures HasTags(tags, a) && HasTags(tags, b) && a[once] != b[once]
    ensures Canonical(tags, a) == Canonical(tags, b)
  {
    hide Lines, Canonical, AtMost;
    var i := OncePlace(tags, once);
    var last := |tags| - 1;
    if i < last {
      var y := tags[last];
      var before, between := tags[..i], tags[i + 1..last];
      assert tags == before + [once] + between + [y];
      forall k | 0 <= k < i ensures tags[k] != y {
        if tags[k] == y {
          EqualsStandTogether(tags, k, i, last);
        }
      }
      a, b := CollidesWithLast(before, once, between, y);
    } else {
      var between := tags[1..last];
      assert tags == [] + [tags[0]] + between + [once];
      a, b := CollidesWithFirst(tags[0], between, once);
    }
    SameLinesSameText(tags, a, b);
  }

  /** One key tag, however often it is listed: a longer value makes a longer text. */
  lemma {:induction false} OneTagLength(tags: seq<string>, a: map<string, string>, b: map<string, string>)
    requires tags != [] && HasTags(tags, a) && HasTags(tags, b)
    requires forall i :: 0 <= i < |tags| ==> tags[i] == tags[0]
    ensures |a[tags[0]]| < |b[tags[0]]| ==> |Canonical(tags, a)| < |Canonical(tags, b)|
    decreases |tags|
  {
    if |tags| > 1 {
      OneTagLength(tags[1..], a, b);
    }
  }

  lemma OneTagDetermines(tags: seq<string>, a: map<string, string>, b: map<string, string>)
    requires tags != [] && HasTags(tags, a) && HasTags(tags, b)
    requires forall i :: 0 <= i < |tags| ==> tags[i] == tags[0]
    requires Canonical(tags, a) == Canonical(tags, b)
    ensures a[tags[0]] == b[tags[0]]
  {
    OneTagLength(tags, a, b);
    OneTagLength(tags, b, a);
    var head := tags[0] + "=";
    var restA := if |tags| == 1 then "" else "\n" + Canonical(tags[1..], a);
    var restB := if |tags| == 1 then "" else "\n" + Canonical(tags[1..], b);
    assert Canonical(tags, a) == head + (a[tags[0]] + restA);
    assert Canonical(tags, b) == head + (b[tags[0]] + restB);
    DropHead(head, a[tags[0]] + restA, b[tags[0]] + restB);
    assert a[tags[0]] == (a[tags[0]] + restA)[..|a[tags[0]]|] == (b[tags[0]] + restB)[..|b[tags[0]]|] == b[tags[0]];
  }

  /** Two events that differ in a key tag share an id under the rule. */
  ghost predicate Collides(hash: string -> string, rule: Rule) {
    exists a, b :: Collide(hash, rule, a, b)
  }

  ghost predicate Collide(hash: string -> string, rule: Rule, a: Event, b: Event) {
    && Key(hash, rule, a).Some? && Key(hash, rule, a) == Key(hash, rule, b)
    && exists tag :: tag in rule.fromTags && a.tags[tag] != b.tags[tag]
  }

  /** Two key tags, one of them listed once, whose values may hold newlines are enough for two different alerts to
      share an id. */
  lemma NewlineCollision(hash: string -> string, rule: Rule, varName: string, once: string) returns (a: Event, b: Event)
    requires Trim(rule.name) != "" && |rule.fromTags| >= 2 && multiset(rule.fromTags)[once] == 1
    ensures Collide(hash, rule, a, b)
  {
    hide Canonical, Sanitized, Trim, SortTags;
    var tags := SortTags(rule.fromTags);
    SortKeepsTags(rule.fromTags);
    assert |tags| == |multiset(tags)| == |multiset(rule.fromTags)| == |rule.fromTags|;
    assert once in multiset(rule.fromTags);
    var x, y := CollidingTags(tags, once);
    a, b := Event(1, x, varName, "", 1), Event(1, y, varName, "", 1);
  }

  /** Equal ids come from equal canonical texts. */
  lemma KeyDeterminesText(hash: string -> string, rule: Rule, a: Event, b: Event)
    requires Injective(hash) && Key(hash, rule, a).Some? && Key(hash, rule, a) == Key(hash, rule, b)
    ensures HasTags(SortTags(rule.fromTags), a.tags) && HasTags(SortTags(rule.fromTags), b.tags)
    ensures Canonical(SortTags(rule.fromTags), a.tags) == Canonical(SortTags(rule.fromTags), b.tags)
  {
    hide Sanitized, Canonical, Trim, SortTags;
    SortKeepsTags(rule.fromTags);
    var tags := SortTags(rule.fromTags);
    SanitizedIsSlashFree(a.varName);
    SanitizedIsSlashFree(b.varName);
    var head := "rule/" + Sanitized(rule.name) + "/";
    SegmentsAgree(head, Sanitized(a.varName), Sanitized(b.varName), hash(Canonical(tags, a.tags)), hash(Canonical(tags, b.tags)));
  }

  lemma OneTagNeverCollides(hash: string -> string, rule: Rule, a: Event, b: Event)
    requires Injective(hash) && forall i, j :: 0 <= i < |rule.fromTags| && 0 <= j < |rule.fromTags| ==> rule.fromTags[i] == rule.fromTags[j]
    ensures !Collide(hash, rule, a, b)
  {
    hide Key, Canonical, SortTags;
    if Collide(hash, rule, a, b) {
      var tags := SortTags(rule.fromTags);
      SortKeepsTags(rule.fromTags);
      KeyDeterminesText(hash, rule, a, b);
      assert forall i :: 0 <= i < |tags| ==> tags[i] in rule.fromTags;
      assert tags != [];
      OneTagDetermines(tags, a.tags, b.tags);
    }
  }

  /** With values that may hold newlines, and some key tag listed once, different alerts can share an id exactly when
      the rule lists another tag besides. */
  lemma CollidesIff(hash: string -> string, rule: Rule, once: string)
    requires Injective(hash) && Trim(rule.name) != "" && multiset(rule.fromTags)[once] == 1
    ensures Collides(hash, rule) <==> |rule.fromTags| >= 2
  {
    hide Collide, Trim;
    if |rule.fromTags| >= 2 {
      var a, b := NewlineCollision(hash, rule, "v", once);
    } else {
      forall a, b ensures !Collide(hash, rule, a, b) {
        OneTagNeverCollides(hash, rule, a, b);
      }
    }
  }

  // ---------------------------------------------------------------------------
  // Rule prefixes.

  /** The prefix under which a rule's alerts are listed when the rule is removed. */
  function RulePrefix(name: string): string {
    "rule/" + Lower(Trim(name)) + "/"
  }

  /** A path starts with a one-segment prefix exactly when its first segment is that one. */
  lemma FirstSegmentIff(root: string, segment: string, wanted: string, rest: string)
    requires SlashFree(segment) && SlashFree(wanted)
    ensures root + wanted + "/" <= root + segment + "/" + rest <==> segment == wanted
  {
    var prefix, path := root + wanted + "/", root + segment + "/" + rest;
    if prefix <= path {
      var tail := path[|prefix|..];
      assert path == root + wanted + "/" + tail;
      SegmentsAgree(root, segment, wanted, rest, tail);
    }
  }

  /** An id starts with a slash-free rule prefix exactly when its rule segment is that name. */
  lemma PrefixIff(hash: string -> string, rule: Rule, event: Event, other: string)
    requires Key(hash, rule, event).Some? && SlashFree(Lower(Trim(other)))
    ensures RulePrefix(other) <= Key(hash, rule, event).value <==> Sanitized(rule.name) == Lower(Trim(other))
  {
    hide Sanitized, Canonical, Lower, Trim;
    SanitizedIsSlashFree(rule.name);
    SortKeepsTags(rule.fromTags);
    var digest := hash(Canonical(SortTags(rule.fromTags), event.tags));
    var rest := Sanitized(event.varName) + "/" + digest;
    assert Key(hash, rule, event).value == "rule/" + Sanitized(rule.name) + "/" + rest;
    FirstSegmentIff("rule/", Sanitized(rule.name), Lower(Trim(other)), rest);
  }

  /** Sanitizing replaces character by character: a prefix that is as long as the segment shows it. */
  lemma PrefixShowsSegment(segment: string, wanted: string, rest: string)
    requires |segment| == |wanted| && "rule/" + wanted + "/" <= "rule/" + segment + "/" + rest
    ensures segment == wanted
  {
    var prefix, path := "rule/" + wanted + "/", "rule/" + segment + "/" + rest;
    assert wanted == prefix[5..5 + |wanted|] && segment == path[5..5 + |segment|];
    assert prefix == path[..|prefix|];
  }

  /** Sanitizing and lowering agree exactly on allowed characters. */
  lemma SanitizedIsLowerIff(raw: string)
    requires Trim(raw) != ""
    ensures |Sanitized(raw)| == |Lower(Trim(raw))|
    ensures Sanitized(raw) == Lower(Trim(raw)) <==> forall i :: 0 <= i < |Trim(raw)| ==> Allowed(Trim(raw)[i])
  {
    hide Trim;
    var name := Trim(raw);
    assert forall i :: 0 <= i < |name| ==> Lower(name)[i] == LowerChar(name[i]) && Sanitized(raw)[i] == SanitizeChar(name[i]);
    if Sanitized(raw) == Lower(name) {
      forall i | 0 <= i < |name| ensures Allowed(name[i]) {
        assert Sanitized(raw)[i] == Lower(name)[i];
      }
    }
  }

  /** A rule's alerts are listed under its own prefix exactly when its name needs no sanitizing. */
  lemma OwnPrefixIff(hash: string -> string, rule: Rule, event: Event)
    requires Key(hash, rule, event).Some?
    ensures RulePrefix(rule.name) <= Key(hash, rule, event).value <==>
              forall i :: 0 <= i < |Trim(rule.name)| ==> Allowed(Trim(rule.name)[i])
  {
    SanitizedIsLowerIff(rule.name);
    hide Canonical, Trim, Lower, Sanitized, SortTags;
    SortKeepsTags(rule.fromTags);
    var segment, wanted := Sanitized(rule.name), Lower(Trim(rule.name));
    var rest := Sanitized(event.varName) + "/" + hash(Canonical(SortTags(rule.fromTags), event.tags));
    var path := "rule/" + segment + "/" + rest;
    assert Key(hash, rule, event).value == path;
    if "rule/" + wanted + "/" <= path {
      PrefixShowsSegment(segment, wanted, rest);
    }
    if segment == wanted {
      assert path == ("rule/" + wanted + "/") + rest;
    }
  }

  /** Two rules with well-formed names share a prefix only when the names are equal up to case. */
  lemma PrefixSeparatesRules(hash: string -> string, rule: Rule, event: Event, other: string)
    requires Key(hash, rule, event).Some?
    requires forall c :: c in Trim(rule.name) || c in Trim(other) ==> Allowed(c)
    ensures RulePrefix(other) <= Key(hash, rule, event).value <==> Lower(Trim(rule.name)) == Lower(Trim(other))
  {
    var name := Trim(other);
    assert forall i :: 0 <= i < |name| ==> Lower(name)[i] == LowerChar(name[i]) && name[i] in name;
    PrefixIff(hash, rule, event, other);
    var own := Trim(rule.name);
    assert forall i :: 0 <= i < |own| ==> own[i] in own;
    assert Sanitized(rule.name) == Lower(own);
  }

  lemma LowerKeepsSlashes(s: string, x: string, y: string)
    requires s == x + "/" + y
    ensures Lower(s) == Lower(x) + "/" + Lower(y)
    ensures SlashFree(x) ==> SlashFree(Lower(x))
  {
    assert forall i :: 0 <= i < |x| ==> Lower(x)[i] == LowerChar(x[i]) && x[i] in x;
  }

  /** A path of segments starts with a prefix of two exactly when its first two segments are those. */
  lemma TwoSegmentsIff(root: string, a: string, b: string, x: string, y: string, rest: string)
    requires SlashFree(a) && SlashFree(b) && SlashFree(x) && SlashFree(y)
    ensures root + x + "/" + y + "/" <= root + a + "/" + b + "/" + rest <==> a == x && b == y
  {
    var prefix, path := root + x + "/" + y + "/", root + a + "/" + b + "/" + rest;
    if prefix <= path {
      var tail := path[|prefix|..];
      assert path == prefix + tail;
      assert prefix + tail == root + x + "/" + (y + "/" + tail) && path == root + a + "/" + (b + "/" + rest);
      SegmentsAgree(root, a, x, b + "/" + rest, y + "/" + tail);
      assert "" + b + "/" + rest == b + "/" + rest && "" + y + "/" + tail == y + "/" + tail;
      SegmentsAgree("", b, y, rest, tail);
    }
    if a == x && b == y {
      assert path == prefix + rest;
    }
  }

  /** A rule whose name holds one slash lists exactly the alerts of the rule and the variable that its two
      parts name, whoever owns them. */
  lemma SlashNameListsOthers(hash: string -> string, rule: Rule, event: Event, other: string, x: string, y: string)
    requires Key(hash, rule, event).Some? && Trim(other) == x + "/" + y && SlashFree(x) && SlashFree(y)
    ensures RulePrefix(other) <= Key(hash, rule, event).value <==>
              Sanitized(rule.name) == Lower(x) && Sanitized(event.varName) == Lower(y)
  {
    hide Sanitized, Canonical, Lower, Trim;
    SortKeepsTags(rule.fromTags);
    SanitizedIsSlashFree(rule.name);
    SanitizedIsSlashFree(event.varName);
    LowerKeepsSlashes(Trim(other), x, y);
    LowerKeepsSlashes(y + "/" + "", y, "");
    var digest := hash(Canonical(SortTags(rule.fromTags), event.tags));
    var root, r, v := "rule/", Sanitized(rule.name), Sanitized(event.varName);
    assert Key(hash, rule, event).value == root + r + "/" + v + "/" + digest;
    assert RulePrefix(other) == root + Lower(x) + "/" + Lower(y) + "/";
    TwoSegmentsIff(root, r, v, Lower(x), Lower(y), digest);
  }

  lemma HoldsSlash(s: string, rest: string)
    ensures !SlashFree(s + "/" + rest)
  {
    assert (s + "/" + rest)[|s|] == '/';
  }

  /** With more slashes, and digests without any, it lists nothing. */
  lemma DeepNameListsNothing(hash: string -> string, rule: Rule, event: Event, other: string, x: string, y: string, z: string)
    requires Key(hash, rule, event).Some? && Trim(other) == x + "/" + (y + "/" + z) && SlashFree(x) && SlashFree(y)
    requires forall text :: SlashFree(hash(text))
    ensures !(RulePrefix(other) <= Key(hash, rule, event).value)
  {
    hide Sanitized, Canonical, Lower, Trim, SortTags;
    SortKeepsTags(rule.fromTags);
    SanitizedIsSlashFree(rule.name);
    SanitizedIsSlashFree(event.varName);
    LowerKeepsSlashes(Trim(other), x, y + "/" + z);
    LowerKeepsSlashes(y + "/" + z, y, z);
    var digest := hash(Canonical(SortTags(rule.fromTags), event.tags));
    var r, v := Sanitized(rule.name), Sanitized(event.varName);
    assert Key(hash, rule, event).value == "rule/" + r + "/" + (v + "/" + digest);
    assert RulePrefix(other) == "rule/" + Lower(x) + "/" + (Lower(y) + "/" + (Lower(z) + "/"));
    FourthSegment("rule/", r, v, digest, Lower(x), Lower(y), Lower(z));
  }

  /** A path of three slash-free segments has no prefix of four. */
  lemma FourthSegment(root: string, a: string, b: string, c: string, x: string, y: string, z: string)
    requires SlashFree(a) && SlashFree(b) && SlashFree(c) && SlashFree(x) && SlashFree(y)
    ensures !(root + x + "/" + (y + "/" + (z + "/")) <= root + a + "/" + (b + "/" + c))
  {
    var prefix, path := root + x + "/" + (y + "/" + (z + "/")), root + a + "/" + (b + "/" + c);
    if prefix <= path {
      var tail := path[|prefix|..];
      assert path == prefix + tail == root + x + "/" + (y + "/" + (z + "/" + tail));
      SegmentsAgree(root, a, x, b + "/" + c, y + "/" + (z + "/" + tail));
      assert "" + b + "/" + c == b + "/" + c && "" + y + "/" + (z + "/" + tail) == y + "/" + (z + "/" + tail);
      SegmentsAgree("", b, y, c, z + "/" + tail);
      HoldsSlash(z, tail);
    }
  }
}
