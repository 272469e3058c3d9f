/** Wildcard masks compiled to regular expressions by textual substitution. */
module Wildcard {
  import opened Domain
  import opened AlertKey

  // ---------------------------------------------------------------------------
  // The compiler: three passes over the text.

  const BACKSLASH: char := '\\'

  /** The characters the first pass escapes. */
  predicate Escaped(c: char) {
    c in ".+()[]{}^$|"
  }

  function Escape(s: string): string {
    if s == "" then "" else (if Escaped(s[0]) then [BACKSLASH, s[0]] else [s[0]]) + Escape(s[1..])
  }

  function ReplaceAll(s: string, c: char, with: string): string {
    if s == "" then "" else (if s[0] == c then with else [s[0]]) + ReplaceAll(s[1..], c, with)
  }

  /** The text of the regular expression for a mask. */
  function Compile(pattern: string): string {
    "^" + ReplaceAll(ReplaceAll(Escape(Lower(pattern)), '*', ".*"), '?', ".") + "$"
  }

  // ---------------------------------------------------------------------------
  // Regular expressions over the syntax such texts use.

  datatype Atom = Lit(c: char) | AnyChar
  datatype Node = One(atom: Atom) | Star(atom: Atom) | Begin | End

  /** A character with a meaning of its own outside an escape. */
  predicate Meta(c: char) {
    Escaped(c) || c == '*' || c == '?' || c == BACKSLASH
  }

  predicate Alphanumeric(c: char) {
    'a' <= c <= 'z' || 'A' <= c <= 'Z' || '0' <= c <= '9' || c == '_'
  }

  /** The atom at the start of a text and the characters it takes. Groups, classes, alternatives
      and escaped letters are outside this syntax. */
  function ParseAtom(s: string): Option<(Atom, nat)>
    ensures var r := ParseAtom(s); r.Some? ==> 0 < r.value.1 <= |s|
  {
    if s == "" then None
    else if s[0] == BACKSLASH then
      if |s| > 1 && !Alphanumeric(s[1]) then Some((Lit(s[1]), 2)) else None
    else if s[0] == '.' then Some((AnyChar, 1))
    else if Meta(s[0]) then None
    else Some((Lit(s[0]), 1))
  }

  function Prepend(node: Node, rest: Option<seq<Node>>): Option<seq<Node>> {
    if rest.None? then None else Some([node] + rest.value)
  }

  /** The nodes of a text: anchors, and atoms with or without a star. */
  function Parse(s: string): Option<seq<Node>>
    decreases |s|
  {
    if s == "" then Some([])
    else if s[0] == '^' then Prepend(Begin, Parse(s[1..]))
    else if s[0] == '$' then Prepend(End, Parse(s[1..]))
    else
      var atom := ParseAtom(s);
      if atom.None? then None
      else
        var rest := s[atom.value.1..];
        if rest != "" && rest[0] == '*' then
          if |rest| > 1 && rest[1] in "*+?{" then None else Prepend(Star(atom.value.0), Parse(rest[1..]))
        else if rest != "" && rest[0] in "+?{" then None
        else Prepend(One(atom.value.0), Parse(rest))
  }

  /** The dot does not match a newline. */
  predicate Accepts(atom: Atom, c: char) {
    match atom
    case Lit(x) => x == c
    case AnyChar => c != '\n'
  }

  predicate MatchAt(nodes: seq<Node>, s: string, pos: nat)
    requires pos <= |s|
    decreases |nodes|, |s| - pos
  {
    if nodes == [] then true
    else
      match nodes[0]
      case Begin => pos == 0 && MatchAt(nodes[1..], s, pos)
      case End => pos == |s| && MatchAt(nodes[1..], s, pos)
      case One(atom) => pos < |s| && Accepts(atom, s[pos]) && MatchAt(nodes[1..], s, pos + 1)
      case Star(atom) =>
        MatchAt(nodes[1..], s, pos) || (pos < |s| && Accepts(atom, s[pos]) && MatchAt(nodes, s, pos + 1))
  }

  /** A regular expression matches when it matches somewhere. */
  predicate Search(nodes: seq<Node>, s: string) {
    exists pos: nat :: pos <= |s| && MatchAt(nodes, s, pos)
  }

  /** The service's test: the compiled mask against the lower-case subject. */
  predicate MaskMatches(pattern: string, subject: string) {
    var nodes := Parse(Compile(pattern));
    nodes.Some? && Search(nodes.value, Lower(subject))
  }

  // ---------------------------------------------------------------------------
  // The meaning of a mask.

  /** Case-insensitive wildcards: `*` any text, `?` any character, when `lines` holds only
      characters that are not newlines. */
  predicate Glob(pattern: string, subject: string, lines: bool)
    decreases |pattern|, |subject|
  {
    if pattern == "" then subject == ""
    else if pattern[0] == '*' then
      Glob(pattern[1..], subject, lines)
      || (subject != "" && (lines ==> subject[0] != '\n') && Glob(pattern, subject[1..], lines))
    else
      && subject != ""
      && (if pattern[0] == '?' then lines ==> subject[0] != '\n' else LowerChar(pattern[0]) == LowerChar(subject[0]))
      && Glob(pattern[1..], subject[1..], lines)
  }

  // ---------------------------------------------------------------------------
  // Compilation preserves the meaning.

  /** What the three passes make of one character. */
  function Chunk(c: char): string {
    if Escaped(c) then [BACKSLASH, c] else if c == '*' then ".*" else if c == '?' then "." else [c]
  }

  function Chunks(s: string): string {
    if s == "" then "" else Chunk(s[0]) + Chunks(s[1..])
  }

  lemma {:induction false} ReplaceAppend(a: string, b: string, c: char, with: string)
    ensures ReplaceAll(a + b, c, with) == ReplaceAll(a, c, with) + ReplaceAll(b, c, with)
  {
    if a == "" {
      assert a + b == b;
    } else {
      assert (a + b)[1..] == a[1..] + b;
      ReplaceAppend(a[1..], b, c, with);
    }
  }

  lemma ReplaceShort(x: string, c: char, with: string)
    requires 0 < |x| <= 2
    ensures |x| == 1 ==> ReplaceAll(x, c, with) == if x[0] == c then with else x
    ensures |x| == 2 && x[0] != c && x[1] != c ==> ReplaceAll(x, c, with) == x
  {
    if |x| == 2 {
      assert ReplaceAll(x[1..], c, with) == (if x[1] == c then with else [x[1]]) + "";
      assert x == [x[0]] + [x[1]];
    }
  }

  /** The passes do not disturb each other: together they substitute each character by its chunk. */
  lemma {:induction false} PassesSubstitute(s: string)
    ensures ReplaceAll(ReplaceAll(Escape(s), '*', ".*"), '?', ".") == Chunks(s)
  {
    if s != "" {
      var head := if Escaped(s[0]) then [BACKSLASH, s[0]] else [s[0]];
      PassesSubstitute(s[1..]);
      ReplaceAppend(head, Escape(s[1..]), '*', ".*");
      ReplaceShort(head, '*', ".*");
      var once := ReplaceAll(head, '*', ".*");
      ReplaceAppend(once, ReplaceAll(Escape(s[1..]), '*', ".*"), '?', ".");
      ReplaceShort(once, '?', ".");
    }
  }

  function NodeOf(c: char): Node {
    if c == '*' then Star(AnyChar) else if c == '?' then One(AnyChar) else One(Lit(c))
  }

  function NodesOf(s: string): seq<Node> {
    if s == "" then [] else [NodeOf(s[0])] + NodesOf(s[1..])
  }

  predicate BackslashFree(s: string) {
    BACKSLASH !in s
  }

  lemma EndParses()
    ensures Parse("$") == Some([End])
  {
    assert "$"[1..] == "" && Parse("") == Some([]);
    assert [End] + [] == [End];
  }

  /** Parsing the substituted text gives one node for each character of the mask. */
  lemma {:induction false} ChunksParse(s: string)
    requires BackslashFree(s)
    ensures Parse(Chunks(s) + "$") == Some(NodesOf(s) + [End])
  {
    if s == "" {
      EndParses();
      assert Chunks(s) + "$" == "$" && NodesOf(s) + [End] == [End];
    } else {
      var tail := Chunks(s[1..]) + "$";
      var text := Chunks(s) + "$";
      ChunksParse(s[1..]);
      assert text == Chunk(s[0]) + tail;
      NextIsNoRepeat(s[1..]);
      ChunkParses(s[0], tail);
      assert NodesOf(s) + [End] == [NodeOf(s[0])] + (NodesOf(s[1..]) + [End]);
    }
  }

  /** What follows a chunk never repeats it. */
  lemma NextIsNoRepeat(s: string)
    ensures var tail := Chunks(s) + "$"; tail != "" && tail[0] !in "*+?{"
  {
    if s != "" {
      assert (Chunks(s) + "$")[0] == Chunk(s[0])[0];
    }
  }

  lemma ChunkParses(c: char, tail: string)
    requires c != BACKSLASH && tail != "" && tail[0] !in "*+?{"
    ensures Parse(Chunk(c) + tail) == Prepend(NodeOf(c), Parse(tail))
  {
    var text := Chunk(c) + tail;
    if Escaped(c) {
      assert text[0] == BACKSLASH && text[1] == c && text[2..] == tail;
    } else if c == '*' {
      assert text[0] == '.' && text[1..][0] == '*' && text[1..][1..] == tail && text[1..][1] == tail[0];
    } else {
      assert text[1..] == tail;
    }
  }

  /** The nodes of a lower-case mask match a subject as the mask does, newlines apart. */
  lemma {:induction false} NodesMatchGlob(pattern: string, subject: string, pos: nat)
    requires pos <= |subject|
    ensures MatchAt(NodesOf(Lower(pattern)) + [End], Lower(subject), pos) <==> Glob(pattern, subject[pos..], true)
    decreases |pattern|, |subject| - pos
  {
    var nodes := NodesOf(Lower(pattern)) + [End];
    var s := Lower(subject);
    if pattern == "" {
      assert Lower(pattern) == "" && nodes == [End];
      assert MatchAt(nodes[1..], s, pos);
    } else {
      assert Lower(pattern)[1..] == Lower(pattern[1..]);
      assert nodes[0] == NodeOf(LowerChar(pattern[0]));
      assert nodes[1..] == NodesOf(Lower(pattern[1..])) + [End];
      if pos < |subject| {
        assert subject[pos..][1..] == subject[pos + 1..] && subject[pos..][0] == subject[pos];
        assert s[pos] == LowerChar(subject[pos]);
        NodesMatchGlob(pattern[1..], subject, pos + 1);
        if pattern[0] == '*' {
          NodesMatchGlob(pattern, subject, pos + 1);
        }
      }
      if pattern[0] == '*' {
        NodesMatchGlob(pattern[1..], subject, pos);
      }
    }
  }

  /** Main result: for a backslash-free mask the compiled text always parses, and matches exactly
      the subjects of the mask whose wildcards cover no newline. */
  lemma MaskMeansGlob(pattern: string, subject: string)
    requires BackslashFree(pattern)
    ensures Parse(Compile(pattern)).Some?
    ensures MaskMatches(pattern, subject) <==> Glob(pattern, subject, true)
  {
    var lower := Lower(pattern);
    assert BackslashFree(lower) by {
      assert forall i :: 0 <= i < |pattern| ==> pattern[i] in pattern;
    }
    PassesSubstitute(lower);
    ChunksParse(lower);
    var text := Compile(pattern);
    assert text == "^" + (Chunks(lower) + "$");
    assert text[1..] == Chunks(lower) + "$";
    var nodes := NodesOf(lower) + [End];
    assert Parse(text) == Some([Begin] + nodes);
    assert ([Begin] + nodes)[1..] == nodes;
    NodesMatchGlob(pattern, subject, 0);
    assert subject[0..] == subject;
    var s := Lower(subject);
    assert MatchAt([Begin] + nodes, s, 0) <==> MatchAt(nodes, s, 0);
    assert forall pos: nat :: pos <= |s| && MatchAt([Begin] + nodes, s, pos) ==> pos == 0;
  }

  // ---------------------------------------------------------------------------
  // Where newlines and backslashes matter.

  lemma {:induction false} LinesOnly(pattern: string, subject: string)
    requires NewlineFree(subject)
    ensures Glob(pattern, subject, true) <==> Glob(pattern, subject, false)
    decreases |pattern|, |subject|
  {
    if pattern != "" {
      if subject != "" {
        LinesOnly(pattern[1..], subject[1..]);
        if pattern[0] == '*' {
          LinesOnly(pattern, subject[1..]);
        }
      }
      if pattern[0] == '*' {
        LinesOnly(pattern[1..], subject);
      }
    }
  }

  lemma {:induction false} StarMatches(subject: string, lines: bool)
    ensures Glob("*", subject, lines) <==> (lines ==> NewlineFree(subject))
  {
    assert "*"[1..] == "";
    if subject != "" {
      StarMatches(subject[1..], lines);
      assert subject == [subject[0]] + subject[1..];
    }
  }

  /** A subject is treated as the mask means, for every backslash-free mask, exactly when it holds no newline. */
  lemma SubjectFaithfulIff(subject: string)
    ensures (forall pattern :: BackslashFree(pattern) ==> (MaskMatches(pattern, subject) <==> Glob(pattern, subject, false)))
            <==> NewlineFree(subject)
  {
    hide MaskMatches, Glob;
    if NewlineFree(subject) {
      forall pattern | BackslashFree(pattern)
        ensures MaskMatches(pattern, subject) <==> Glob(pattern, subject, false)
      {
        MaskMeansGlob(pattern, subject);
        LinesOnly(pattern, subject);
      }
    } else {
      assert BackslashFree("*");
      MaskMeansGlob("*", subject);
      StarMatches(subject, true);
      StarMatches(subject, false);
    }
  }

  // ---------------------------------------------------------------------------
  // Masks with backslashes.

  /** Every backslash of the mask stands before a wildcard, another backslash, or a character that has no meaning
      of its own in a regular expression. */
  predicate Tame(s: string) {
    s == "" ||
    if s[0] == BACKSLASH then |s| > 1 && !Escaped(s[1]) && !Alphanumeric(s[1]) && Tame(s[2..])
    else Tame(s[1..])
  }

  /** The nodes of such a mask: a backslash vanishes and makes a literal of what comes next. */
  function TameNodes(s: string): seq<Node>
    requires Tame(s)
  {
    if s == "" then []
    else if s[0] == BACKSLASH then
      [if s[1] == '*' then Star(Lit('.')) else if s[1] == '?' then One(Lit('.')) else One(Lit(s[1]))] + TameNodes(s[2..])
    else [NodeOf(s[0])] + TameNodes(s[1..])
  }

  lemma PairParses(c: char, tail: string)
    requires !Escaped(c) && !Alphanumeric(c) && tail != "" && tail[0] !in "*+?{"
    ensures Parse([BACKSLASH] + Chunk(c) + tail) ==
            Prepend(if c == '*' then Star(Lit('.')) else if c == '?' then One(Lit('.')) else One(Lit(c)), Parse(tail))
  {
    var text := [BACKSLASH] + Chunk(c) + tail;
    assert text[0] == BACKSLASH && text[1] == Chunk(c)[0];
    assert ParseAtom(text) == Some((Lit(text[1]), 2));
    hide ParseAtom;
    if c == '*' {
      assert text[2..] == "*" + tail;
      assert text[2..][0] == '*' && text[2..][1..] == tail && text[2..][1] == tail[0];
    } else {
      assert text[2..] == tail;
    }
  }

  lemma {:induction false} TameParses(s: string)
    requires Tame(s)
    ensures Parse(Chunks(s) + "$") == Some(TameNodes(s) + [End])
    decreases |s|
  {
    if s == "" {
      EndParses();
      assert Chunks(s) + "$" == "$" && TameNodes(s) + [End] == [End];
    } else if s[0] == BACKSLASH {
      var tail := Chunks(s[2..]) + "$";
      assert s[1..][1..] == s[2..] && s[1..][0] == s[1];
      assert Chunks(s) + "$" == [BACKSLASH] + Chunk(s[1]) + tail;
      TameParses(s[2..]);
      NextIsNoRepeat(s[2..]);
      PairParses(s[1], tail);
      assert TameNodes(s) + [End] == [TameNodes(s)[0]] + (TameNodes(s[2..]) + [End]);
    } else {
      var tail := Chunks(s[1..]) + "$";
      assert Chunks(s) + "$" == Chunk(s[0]) + tail;
      TameParses(s[1..]);
      NextIsNoRepeat(s[1..]);
      ChunkParses(s[0], tail);
      assert TameNodes(s) + [End] == [NodeOf(s[0])] + (TameNodes(s[1..]) + [End]);
    }
  }

  /** A shortest text that the nodes match. */
  function Shortest(s: string): string
    requires Tame(s)
  {
    if s == "" then ""
    else if s[0] == BACKSLASH then (if s[1] == '*' then "" else if s[1] == '?' then "." else [s[1]]) + Shortest(s[2..])
    else (if s[0] == '*' then "" else if s[0] == '?' then "x" else [s[0]]) + Shortest(s[1..])
  }

  /** The characters of a mask that each take one of the subject. */
  function Width(s: string): nat {
    if s == "" then 0 else (if s[0] == '*' then 0 else 1) + Width(s[1..])
  }

  lemma {:induction false} GlobIsWide(pattern: string, subject: string, lines: bool)
    requires Glob(pattern, subject, lines)
    ensures |subject| >= Width(pattern)
    decreases |pattern|, |subject|
  {
    if pattern != "" {
      if pattern[0] != '*' {
        GlobIsWide(pattern[1..], subject[1..], lines);
      } else if Glob(pattern[1..], subject, lines) {
        GlobIsWide(pattern[1..], subject, lines);
      } else {
        GlobIsWide(pattern, subject[1..], lines);
      }
    }
  }

  /** Each backslash makes the shortest match one character shorter than the mask asks for. */
  lemma {:induction false} ShortestIsNarrow(s: string)
    requires Tame(s)
    ensures |Shortest(s)| <= Width(s) && (!BackslashFree(s) ==> |Shortest(s)| < Width(s))
    decreases |s|
  {
    if s != "" {
      if s[0] == BACKSLASH {
        assert s == [s[0], s[1]] + s[2..] && s[1..][1..] == s[2..] && s[1..][0] == s[1];
        ShortestIsNarrow(s[2..]);
      } else {
        assert s == [s[0]] + s[1..];
        ShortestIsNarrow(s[1..]);
      }
    }
  }

  /** Lower-case text without newlines. */
  predicate Plain(s: string) {
    forall i :: 0 <= i < |s| ==> LowerChar(s[i]) == s[i] && s[i] != '\n'
  }

  /** The first node of such a mask takes the first part of the shortest match. */
  lemma HeadMatches(node: Node, rest: seq<Node>, before: string, head: string, tail: string)
    requires if node.Star? then head == "" else node.One? && |head| == 1 && Accepts(node.atom, head[0])
    requires MatchAt(rest, before + head + tail, |before + head|)
    ensures MatchAt([node] + rest, before + head + tail, |before|)
  {
    assert ([node] + rest)[1..] == rest;
    assert head == "" ==> before + head == before;
  }

  function HeadOf(s: string): (Node, string, string)
    requires Tame(s) && s != ""
  {
    if s[0] == BACKSLASH then
      (if s[1] == '*' then Star(Lit('.')) else if s[1] == '?' then One(Lit('.')) else One(Lit(s[1])),
       if s[1] == '*' then "" else if s[1] == '?' then "." else [s[1]], s[2..])
    else (NodeOf(s[0]), if s[0] == '*' then "" else if s[0] == '?' then "x" else [s[0]], s[1..])
  }

  lemma {:induction false} ShortestMatches(s: string, before: string)
    requires Tame(s) && Plain(s)
    ensures MatchAt(TameNodes(s) + [End], before + Shortest(s), |before|) && Plain(Shortest(s))
    decreases |s|
  {
    if s == "" {
      var text := before + Shortest(s);
      assert TameNodes(s) + [End] == [End] && MatchAt([End][1..], text, |before|);
    } else {
      hide MatchAt, TameNodes, Shortest, HeadOf, Tame, Plain, Accepts;
      var (node, head, rest) := HeadOf(s);
      PlainParts(s);
      HeadSplits(s);
      ShortestMatches(rest, before + head);
      var tail := Shortest(rest);
      assert before + head + tail == before + Shortest(s);
      HeadMatches(node, TameNodes(rest) + [End], before, head, tail);
      assert [node] + (TameNodes(rest) + [End]) == TameNodes(s) + [End];
      PlainConcat(head, tail);
    }
  }

  lemma HeadSplits(s: string)
    requires Tame(s) && s != ""
    ensures var (node, head, rest) := HeadOf(s);
            Tame(rest) && TameNodes(s) == [node] + TameNodes(rest) && Shortest(s) == head + Shortest(rest)
  {
  }

  lemma PlainConcat(a: string, b: string)
    requires Plain(a) && Plain(b)
    ensures Plain(a + b)
  {
  }

  lemma PlainSuffix(s: string, taken: nat)
    requires Plain(s) && taken <= |s|
    ensures Plain(s[taken..])
  {
  }

  lemma PlainParts(s: string)
    requires Tame(s) && Plain(s) && s != ""
    ensures var (node, head, rest) := HeadOf(s);
            Plain(head) && Plain(rest) && Tame(rest) && |rest| < |s|
            && if node.Star? then head == "" else node.One? && |head| == 1 && Accepts(node.atom, head[0])
  {
    PlainChars(s);
    if s[0] == BACKSLASH {
      PlainSuffix(s, 2);
    } else {
      PlainSuffix(s, 1);
    }
    hide Plain;
  }

  lemma PlainChars(s: string)
    requires Plain(s) && s != ""
    ensures Plain("") && Plain("x") && Plain(".") && Plain([s[0]]) && (|s| > 1 ==> Plain([s[1]]))
    ensures s[0] != '\n' && (|s| > 1 ==> s[1] != '\n')
  {
  }

  /** A mask means what it says on every newline-free subject. */
  ghost predicate MaskFaithful(pattern: string) {
    forall subject :: NewlineFree(subject) ==> (MaskMatches(pattern, subject) <==> Glob(pattern, subject, false))
  }

  lemma {:induction false} LowerKeepsTame(s: string)
    requires Tame(s)
    ensures Tame(Lower(s))
    decreases |s|
  {
    if s != "" {
      var taken := if s[0] == BACKSLASH then 2 else 1;
      LowerKeepsTame(s[taken..]);
      assert Lower(s)[taken..] == Lower(s[taken..]) && Lower(s)[0] == LowerChar(s[0]) && Lower(s)[taken - 1] == LowerChar(s[taken - 1]);
    }
  }

  lemma {:induction false} LowerKeepsWidth(s: string)
    ensures Width(Lower(s)) == Width(s)
  {
    if s != "" {
      LowerKeepsWidth(s[1..]);
      assert Lower(s)[1..] == Lower(s[1..]) && Lower(s)[0] == LowerChar(s[0]);
    }
  }

  lemma LowerKeepsBackslashes(s: string)
    ensures BackslashFree(Lower(s)) <==> BackslashFree(s)
  {
    var lower := Lower(s);
    if i :| 0 <= i < |s| && s[i] == BACKSLASH {
      assert lower[i] == BACKSLASH;
    }
    if i :| 0 <= i < |s| && lower[i] == BACKSLASH {
      assert s[i] == BACKSLASH;
    }
  }

  /** A mask with such a backslash matches a text that is too short for it. */
  lemma TooShortMatches(pattern: string) returns (subject: string)
    requires Tame(pattern) && !BackslashFree(pattern) && NewlineFree(pattern)
    ensures NewlineFree(subject) && MaskMatches(pattern, subject) && !Glob(pattern, subject, false)
  {
    var lower := Lower(pattern);
    LowerKeepsTame(pattern);
    LowerKeepsWidth(pattern);
    LowerKeepsBackslashes(pattern);
    assert Plain(lower) by {
      assert forall i :: 0 <= i < |pattern| ==> pattern[i] in pattern && lower[i] == LowerChar(pattern[i]);
    }
    subject := Shortest(lower);
    ShortestMatches(lower, "");
    ShortestIsNarrow(lower);
    assert Lower(subject) == subject by {
      assert forall i :: 0 <= i < |subject| ==> subject[i] in subject;
    }
    PassesSubstitute(lower);
    TameParses(lower);
    CompiledMatches(pattern, TameNodes(lower) + [End], subject);
    if Glob(pattern, subject, false) {
      GlobIsWide(pattern, subject, false);
    }
  }

  lemma CompiledMatches(pattern: string, nodes: seq<Node>, subject: string)
    requires Parse(Chunks(Lower(pattern)) + "$") == Some(nodes) && Lower(subject) == subject
    requires MatchAt(nodes, "" + subject, 0)
    ensures MaskMatches(pattern, subject)
  {
    var lower := Lower(pattern);
    PassesSubstitute(lower);
    var text := Compile(pattern);
    assert text == "^" + (Chunks(lower) + "$") && text[1..] == Chunks(lower) + "$";
    assert Parse(text) == Some([Begin] + nodes);
    assert ([Begin] + nodes)[1..] == nodes && "" + subject == subject;
    assert MatchAt([Begin] + nodes, subject, 0);
  }

  /** A newline in a mask asks for one in the subject. */
  lemma {:induction false} GlobNeedsNewline(pattern: string, subject: string, lines: bool)
    requires Glob(pattern, subject, lines) && !NewlineFree(pattern)
    ensures !NewlineFree(subject)
    decreases |pattern|, |subject|
  {
    if pattern[0] == '*' {
      assert !NewlineFree(pattern[1..]);
      if Glob(pattern[1..], subject, lines) {
        GlobNeedsNewline(pattern[1..], subject, lines);
      } else {
        GlobNeedsNewline(pattern, subject[1..], lines);
      }
    } else if pattern[0] == '\n' {
      assert subject[0] in subject;
    } else {
      assert !NewlineFree(pattern[1..]);
      GlobNeedsNewline(pattern[1..], subject[1..], lines);
    }
  }

  lemma {:induction false} NodesNeedNewline(s: string, text: string, pos: nat)
    requires Tame(s) && !NewlineFree(s) && pos <= |text| && MatchAt(TameNodes(s) + [End], text, pos)
    ensures !NewlineFree(text)
    decreases |s|, |text| - pos
  {
    var (node, head, rest) := HeadOf(s);
    var nodes := TameNodes(s) + [End];
    assert nodes[0] == node && nodes[1..] == TameNodes(rest) + [End];
    if node == One(Lit('\n')) {
      assert text[pos] in text;
    } else {
      assert !NewlineFree(rest) by {
        assert s == s[..|s| - |rest|] + rest;
      }
      if node.One? {
        NodesNeedNewline(rest, text, pos + 1);
      } else if MatchAt(nodes[1..], text, pos) {
        NodesNeedNewline(rest, text, pos);
      } else {
        NodesNeedNewline(s, text, pos + 1);
      }
    }
  }

  lemma NewlineMasksMatchNothing(pattern: string, subject: string)
    requires Tame(pattern) && !NewlineFree(pattern) && NewlineFree(subject)
    ensures !MaskMatches(pattern, subject) && !Glob(pattern, subject, false)
  {
    var lower, s := Lower(pattern), Lower(subject);
    LowerKeepsTame(pattern);
    assert !NewlineFree(lower) by {
      var i :| 0 <= i < |pattern| && pattern[i] == '\n';
      assert lower[i] == '\n';
    }
    assert NewlineFree(s) by {
      assert forall i :: 0 <= i < |subject| ==> subject[i] in subject && s[i] == LowerChar(subject[i]);
    }
    PassesSubstitute(lower);
    TameParses(lower);
    var text, nodes := Compile(pattern), TameNodes(lower) + [End];
    assert text == "^" + (Chunks(lower) + "$") && text[1..] == Chunks(lower) + "$";
    assert Parse(text) == Some([Begin] + nodes) && ([Begin] + nodes)[1..] == nodes;
    if MatchAt(nodes, s, 0) {
      NodesNeedNewline(lower, s, 0);
    }
    if Glob(pattern, subject, false) {
      GlobNeedsNewline(pattern, subject, false);
    }
  }

  /** Main result on backslashes: a mask whose backslashes stand before wildcards, backslashes or plain punctuation
      means what it says exactly when it has none, or holds a newline and so matches nothing. */
  lemma FaithfulIffBackslashFree(pattern: string)
    requires Tame(pattern)
    ensures MaskFaithful(pattern) <==> BackslashFree(pattern) || !NewlineFree(pattern)
  {
    hide MaskMatches, Glob, Tame;
    if !NewlineFree(pattern) {
      forall subject | NewlineFree(subject) ensures MaskMatches(pattern, subject) <==> Glob(pattern, subject, false) {
        NewlineMasksMatchNothing(pattern, subject);
      }
    } else if BackslashFree(pattern) {
      forall subject | NewlineFree(subject) ensures MaskMatches(pattern, subject) <==> Glob(pattern, subject, false) {
        MaskMeansGlob(pattern, subject);
        LinesOnly(pattern, subject);
      }
    } else {
      var subject := TooShortMatches(pattern);
    }
  }
}
