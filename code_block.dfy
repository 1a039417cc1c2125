/** The code-block renderer for assistant messages: the content is cut into text and
    triple-backtick fenced parts, each fence yields a language and a body, blank parts are
    dropped, code blocks are numbered in order for the copy buttons, and a language name is
    mapped to a highlighting class. */
module CodeBlock {
  import opened Wrappers
  import opened Seqs
  import opened Text

  const Fence: string := "```"
  const DefaultLanguage: string := "text"
  const DefaultLanguageClass: string := "language-text"

  // ---------------------------------------------------------------------------
  // Splitting at fences

  /** `content.split(/(```[\s\S]*?```)/g)`: text, then the first fenced stretch (from the
      first "```" to the next "```" that starts at least three characters later), then the
      split of what follows; a string with no complete fence is one text piece. The
      captured fences stay in the result. */
  function FenceSplit(s: string): (r: seq<string>)
    decreases |s|
    ensures |r| % 2 == 1
  {
    match IndexOf(s, Fence, 0)
    case None => [s]
    case Some(p) =>
      match IndexOf(s, Fence, p + 3)
      case None => [s]
      case Some(c) => [s[..p], s[p..c + 3]] + FenceSplit(s[c + 3..])
  }

  predicate IsFenced(part: string) {
    StartsWith(part, Fence) && EndsWith(part, Fence)
  }

  lemma ConcatCons2(a: string, b: string, rest: seq<string>)
    ensures Concat([a, b] + rest) == a + b + Concat(rest)
  {
    ConcatAppend([a, b], rest);
    assert [a, b][..1] == [a];
    assert [a][..0] == [];
    assert Concat([a]) == a;
    assert Concat([a, b]) == a + b;
  }

  lemma SliceThree(s: string, i: nat, j: nat)
    requires i <= j <= |s|
    ensures s[..i] + s[i..j] + s[j..] == s
  {
  }

  /** A stretch that starts and ends at a fence is fenced. */
  lemma FencedStretch(s: string, p: nat, c: nat)
    requires p + 3 <= c && c + 3 <= |s|
    requires OccursAt(s, Fence, p) && OccursAt(s, Fence, c)
    ensures IsFenced(s[p..c + 3]) && |s[p..c + 3]| >= 6
  {
    var f := s[p..c + 3];
    assert f[..3] == s[p..p + 3];
    assert f[|f| - 3..] == s[c..c + 3];
  }

  /** A prefix that ends before the first fence holds no fence. */
  lemma NoFenceBefore(s: string, p: nat)
    requires p <= |s|
    requires forall j :: 0 <= j < p ==> !OccursAt(s, Fence, j)
    ensures !Contains(s[..p], Fence)
  {
    forall j | 0 <= j <= p - |Fence| ensures !OccursAt(s[..p], Fence, j) {
      assert s[..p][j..j + |Fence|] == s[j..j + |Fence|];
      assert !OccursAt(s, Fence, j);
    }
  }

  /** The split cuts the first fence off and goes on after it. */
  lemma {:induction false} FenceSplitStep(s: string, p: nat, c: nat)
    requires IndexOf(s, Fence, 0) == Some(p) && IndexOf(s, Fence, p + 3) == Some(c)
    ensures c + 3 <= |s|
    ensures FenceSplit(s) == [s[..p], s[p..c + 3]] + FenceSplit(s[c + 3..])
  {
    var r := FenceSplit(s);
    var cut := [s[..p], s[p..c + 3]] + FenceSplit(s[c + 3..]);
    assert r == cut;
  }

  /** The split loses nothing: its pieces concatenate to the input. */
  lemma {:induction false} FenceSplitConcat(s: string)
    decreases |s|
    ensures Concat(FenceSplit(s)) == s
  {
    match IndexOf(s, Fence, 0)
    case None =>
      assert [s][..0] == [];
    case Some(p) =>
      match IndexOf(s, Fence, p + 3)
      case None =>
        assert [s][..0] == [];
      case Some(c) =>
        FenceSplitConcat(s[c + 3..]);
        ConcatCons2(s[..p], s[p..c + 3], FenceSplit(s[c + 3..]));
        SliceThree(s, p, c + 3);
  }

  /** No complete fence: no "```" starts three or more characters after another. */
  predicate NoCompleteFence(t: string) {
    forall i, k :: 0 <= i < |t| && 0 <= k < |t| && OccursAt(t, Fence, i) && OccursAt(t, Fence, k) ==> k < i + 3
  }

  /** A text piece and the fence after it, as the regular expression finds them: the first
      "```" of the two together opens the fence, so none starts inside the text, not even one
      running on into the fence; the fence is complete and at least six characters long; and
      it closes at its first "```" that starts three or more characters after its opening one
      (the lazy `*?`). */
  predicate TextThenFence(t: string, f: string) {
    && IsFenced(f) && |f| >= 6
    && IndexOf(t + f, Fence, 0) == Some(|t|)
    && IndexOf(f, Fence, 3) == Some(|f| - 3)
  }

  /** Text and fences alternate: each text before a fence holds no "```" and is followed by
      the first, shortest fence; the list ends with a text that holds no complete fence. */
  predicate Alternates(r: seq<string>) {
    PairsAlternate(r) && NoCompleteFence(r[|r| - 1])
  }

  /** Text, fence, text, …, text, with each text and the fence after it a pair. */
  predicate PairsAlternate(r: seq<string>)
    decreases |r|
  {
    || |r| == 1
    || (|r| >= 3 && !Contains(r[0], Fence) && TextThenFence(r[0], r[1]) && PairsAlternate(r[2..]))
  }

  lemma PairsAlternateCons(t: string, f: string, rest: seq<string>)
    requires !Contains(t, Fence) && TextThenFence(t, f) && PairsAlternate(rest)
    ensures PairsAlternate([t, f] + rest)
  {
    assert ([t, f] + rest)[2..] == rest;
  }

  /** The text and fence the split cuts first form a text and fence pair. */
  lemma {:induction false} FirstCutIsTextThenFence(s: string, p: nat, c: nat)
    requires IndexOf(s, Fence, 0) == Some(p) && IndexOf(s, Fence, p + 3) == Some(c)
    ensures TextThenFence(s[..p], s[p..c + 3]) && !Contains(s[..p], Fence)
  {
    FencedStretch(s, p, c);
    NoFenceBefore(s, p);
    FirstCutOpens(s, p, c);
    FirstCutCloses(s, p, c);
  }

  lemma {:induction false} FirstCutOpens(s: string, p: nat, c: nat)
    requires p <= c && c + 3 <= |s| && IndexOf(s, Fence, 0) == Some(p)
    ensures IndexOf(s[..p] + s[p..c + 3], Fence, 0) == Some(p)
  {
    assert s[..p] + s[p..c + 3] == s[0..c + 3];
    IndexOfSlice(s, Fence, 0, c + 3, 0, p);
  }

  lemma FirstCutCloses(s: string, p: nat, c: nat)
    requires p + 3 <= c && c + 3 <= |s| && IndexOf(s, Fence, p + 3) == Some(c)
    ensures IndexOf(s[p..c + 3], Fence, 3) == Some(c - p)
  {
    IndexOfSlice(s, Fence, p, c + 3, 3, c - p);
  }

  lemma {:induction false} FenceSplitPairs(s: string)
    decreases |s|
    ensures PairsAlternate(FenceSplit(s))
  {
    match IndexOf(s, Fence, 0)
    case None =>
    case Some(p) =>
      match IndexOf(s, Fence, p + 3)
      case None =>
      case Some(c) =>
        FenceSplitPairs(s[c + 3..]);
        PairsStep(s, p, c);
  }

  /** One step of the induction for `FenceSplitPairs`. */
  lemma {:induction false} PairsStep(s: string, p: nat, c: nat)
    requires IndexOf(s, Fence, 0) == Some(p) && IndexOf(s, Fence, p + 3) == Some(c)
    requires c + 3 <= |s| && PairsAlternate(FenceSplit(s[c + 3..]))
    ensures PairsAlternate(FenceSplit(s))
  {
    FenceSplitStep(s, p, c);
    FirstCutIsTextThenFence(s, p, c);
    PairsAlternateCons(s[..p], s[p..c + 3], FenceSplit(s[c + 3..]));
  }

  /** What the split leaves whole holds no complete fence. */
  lemma UncutHasNoCompleteFence(s: string)
    requires IndexOf(s, Fence, 0).None? || IndexOf(s, Fence, IndexOf(s, Fence, 0).value + 3).None?
    ensures NoCompleteFence(s)
  {
  }

  lemma {:induction false} FenceSplitLast(s: string)
    decreases |s|
    ensures NoCompleteFence(FenceSplit(s)[|FenceSplit(s)| - 1])
  {
    match IndexOf(s, Fence, 0)
    case None =>
      UncutHasNoCompleteFence(s);
    case Some(p) =>
      match IndexOf(s, Fence, p + 3)
      case None =>
        UncutHasNoCompleteFence(s);
      case Some(c) =>
        FenceSplitLast(s[c + 3..]);
  }

  /** The split is text, fence, text, …, text, each fence the first and shortest one. */
  lemma FenceSplitAlternates(s: string)
    ensures Alternates(FenceSplit(s))
  {
    FenceSplitPairs(s);
    FenceSplitLast(s);
  }

  /** Where a string reads `t + f + tail`, with `f` from `p` to `e`, the slices that hold
      each part. */
  lemma CutPieces(s: string, t: string, f: string, tail: string, p: nat, e: nat)
    requires s == t + f + tail && p == |t| && e == |t| + |f|
    ensures e <= |s| && s[..p] == t && s[p..e] == f && s[..e] == t + f && s[e..] == tail
  {
    assert s[..p] == t;
    assert s[p..e] == f;
    assert s[..e] == t + f;
    assert s[e..] == tail;
  }

  /** What `indexOf` finds in a slice it finds in `s`, shifted by the slice's start. */
  lemma FoundInSlice(s: string, i: nat, m: nat, u: string, from: nat, k: nat)
    requires i <= m <= |s| && s[i..m] == u && from <= k && k + 3 <= |u| && IndexOf(u, Fence, from) == Some(k)
    ensures IndexOf(s, Fence, i + from) == Some(i + k)
  {
    IndexOfSlice(s, Fence, i, m, from, k);
  }

  /** A text and fence pair that start a string, the fence ending at `c + 3`, are where
      `indexOf` finds the fence's two "```": at `p` and at `c`. */
  lemma {:induction false} CutFences(s: string, p: nat, c: nat, t: string, f: string)
    requires TextThenFence(t, f) && p == |t| && c + 3 == p + |f| && c + 3 <= |s|
    requires s[..c + 3] == t + f && s[p..c + 3] == f
    ensures IndexOf(s, Fence, 0) == Some(p)
    ensures IndexOf(s, Fence, p + 3) == Some(c)
  {
    assert s[0..c + 3] == s[..c + 3];
    FoundInSlice(s, 0, c + 3, t + f, 0, |t|);
    FoundInSlice(s, p, c + 3, f, 3, |f| - 3);
  }

  /** What holds no complete fence is one piece. */
  lemma NoCompleteFenceUncut(s: string)
    requires NoCompleteFence(s)
    ensures FenceSplit(s) == [s]
  {
    match IndexOf(s, Fence, 0)
    case None =>
    case Some(p) =>
      match IndexOf(s, Fence, p + 3)
      case None =>
      case Some(c) =>
        assert false;
  }

  /** The split is the only alternating cut of the content: a greedy cut, or one that opens
      a fence after the first "```", does not alternate. */
  lemma {:induction false} AlternatingCutIsFenceSplit(s: string, r: seq<string>)
    requires Alternates(r) && Concat(r) == s
    ensures r == FenceSplit(s)
    decreases |r|
  {
    if |r| == 1 {
      assert r[..0] == [];
      assert Concat(r) == r[0] && r[|r| - 1] == r[0];
      NoCompleteFenceUncut(s);
    } else {
      var t, f, rest := r[0], r[1], r[2..];
      assert r == [t, f] + rest;
      assert rest[|rest| - 1] == r[|r| - 1];
      ConcatCons2(t, f, rest);
      var p := |t|;
      var c := p + |f| - 3;
      CutPieces(s, t, f, Concat(rest), p, c + 3);
      CutFences(s, p, c, t, f);
      FenceSplitStep(s, p, c);
      AlternatingCutIsFenceSplit(s[c + 3..], rest);
    }
  }

  /** The greedy cut of "```a```b```", one fence over the whole string, does not alternate:
      its fence holds a "```" before its end. */
  lemma GreedyCutDoesNotAlternate()
    ensures !Alternates(["", "```a```b```", ""])
  {
    var f := "```a```b```";
    assert f[3] == 'a' && f[4..7] == Fence;
    IndexOfIs(f, Fence, 3, 4);
  }

  // ---------------------------------------------------------------------------
  // Parts

  /** A rendered part with its position in the split. */
  datatype Part =
    | TextPart(content: string, index: nat)
    | CodePart(language: string, content: string, index: nat)

  /** The fence's language: the first line without its first "```", trimmed, or "text". */
  function FenceLanguage(lines: seq<string>): (r: string)
    requires |lines| > 0
    ensures r != ""
  {
    var l := Trim(RemoveFirst(lines[0], Fence));
    if l == "" then DefaultLanguage else l
  }

  /** The fence's body: the lines strictly between the first and the last. */
  function FenceBody(lines: seq<string>): string {
    if |lines| <= 1 then "" else Join(lines[1..|lines| - 1], "\n")
  }

  /** A piece that both starts and ends with "```" is code, whatever its position. */
  function Classify(piece: string, index: nat): (r: Part)
    ensures r.CodePart? <==> IsFenced(piece)
    ensures r.index == index
    ensures r.TextPart? ==> r.content == piece
  {
    if IsFenced(piece) then
      var lines := Split(piece, '\n');
      CodePart(FenceLanguage(lines), FenceBody(lines), index)
    else TextPart(piece, index)
  }

  /** A fence on a single line has an empty body: there is nothing between first and last. */
  lemma SingleLineFenceIsEmpty(piece: string, index: nat)
    requires IsFenced(piece) && '\n' !in piece
    ensures Classify(piece, index).content == ""
  {
    assert Split(piece, '\n') == [piece];
  }

  /** The body of a fence with inner lines splits back into exactly those lines. */
  lemma FenceBodyLines(piece: string)
    requires |Split(piece, '\n')| >= 3
    ensures Split(FenceBody(Split(piece, '\n')), '\n') == Split(piece, '\n')[1..|Split(piece, '\n')| - 1]
  {
    var lines := Split(piece, '\n');
    SplitJoin(lines[1..|lines| - 1], '\n');
  }

  predicate Visible(p: Part) {
    Trim(p.content) != ""
  }

  function Classified(pieces: seq<string>): (r: seq<Part>)
    ensures |r| == |pieces|
    ensures forall i :: 0 <= i < |pieces| ==> r[i] == Classify(pieces[i], i)
  {
    seq(|pieces|, i requires 0 <= i < |pieces| => Classify(pieces[i], i))
  }

  /** `parseContent`. */
  function ParseContent(content: string): seq<Part> {
    Filter(Visible, Classified(FenceSplit(content)))
  }

  function PartIndex(p: Part): int { p.index }

  /** Parts in split order: each part's index exceeds the one before it. */
  predicate IndicesIncrease(ps: seq<Part>) {
    forall i :: 0 < i < |ps| ==> ps[i - 1].index < ps[i].index
  }

  /** The surviving parts are the non-blank classified pieces in split order, each carrying
      its own position in the split; every piece that is not blank survives. */
  lemma ParseContentExact(content: string)
    ensures var pieces, ps := FenceSplit(content), ParseContent(content);
            && IndicesIncrease(ps)
            && (forall i :: 0 <= i < |ps| ==>
                  ps[i].index < |pieces| && ps[i] == Classify(pieces[ps[i].index], ps[i].index) && Trim(ps[i].content) != "")
            && (forall i :: 0 <= i < |pieces| && Visible(Classify(pieces[i], i)) ==> Classify(pieces[i], i) in ps)
  {
    var pieces := FenceSplit(content);
    var cs := Classified(pieces);
    FilterIncreasing(Visible, PartIndex, cs);
    FilterMembers(Visible, cs);
    var ps := ParseContent(content);
    forall i | 0 <= i < |ps|
      ensures ps[i].index < |pieces| && ps[i] == Classify(pieces[ps[i].index], ps[i].index)
    {
      var j :| 0 <= j < |cs| && cs[j] == ps[i];
    }
    forall i | 0 <= i < |pieces| && Visible(Classify(pieces[i], i)) ensures Classify(pieces[i], i) in ps {
      assert cs[i] == Classify(pieces[i], i);
    }
  }

  // ---------------------------------------------------------------------------
  // Numbering code blocks

  /** How many code parts come before position `i`. */
  function CodeBlocksBefore(parts: seq<Part>, i: nat): nat
    requires i <= |parts|
  {
    if i == 0 then 0 else CodeBlocksBefore(parts, i - 1) + (if parts[i - 1].CodePart? then 1 else 0)
  }

  /** The render pass: a counter that starts at zero and is read and incremented at each
      code part. The result gives each part its copy-button number, if it is code. */
  method NumberCodeBlocks(parts: seq<Part>) returns (numbers: seq<Option<nat>>)
    ensures |numbers| == |parts|
    ensures forall i :: 0 <= i < |parts| ==>
              numbers[i] == if parts[i].CodePart? then Some(CodeBlocksBefore(parts, i)) else None
  {
    var codeBlockIndex := 0;
    numbers := [];
    for i := 0 to |parts|
      invariant |numbers| == i
      invariant codeBlockIndex == CodeBlocksBefore(parts, i)
      invariant forall k :: 0 <= k < i ==>
                  numbers[k] == if parts[k].CodePart? then Some(CodeBlocksBefore(parts, k)) else None
    {
      if parts[i].CodePart? {
        var current := codeBlockIndex;
        codeBlockIndex := codeBlockIndex + 1;
        numbers := numbers + [Some(current)];
      } else {
        numbers := numbers + [None];
      }
    }
  }

  lemma {:induction false} CodeBlocksBeforeMonotone(parts: seq<Part>, i: nat, j: nat)
    requires i < j <= |parts|
    ensures CodeBlocksBefore(parts, i) + (if parts[i].CodePart? then 1 else 0) <= CodeBlocksBefore(parts, j)
    decreases j
  {
    if j > i + 1 {
      CodeBlocksBeforeMonotone(parts, i, j - 1);
    }
  }

  /** Code blocks are numbered 0, 1, 2, … in order of appearance: numbers strictly increase
      along the code parts, text parts do not advance the counter, and every number is below
      the number of code parts. */
  lemma CodeBlockNumbering(parts: seq<Part>)
    ensures forall i, j :: 0 <= i < j < |parts| && parts[i].CodePart? ==>
              CodeBlocksBefore(parts, i) < CodeBlocksBefore(parts, j)
    ensures forall i :: 0 <= i < |parts| && parts[i].CodePart? ==>
              CodeBlocksBefore(parts, i) < CodeBlocksBefore(parts, |parts|)
    ensures forall i :: 0 <= i < |parts| && parts[i].TextPart? ==>
              CodeBlocksBefore(parts, i + 1) == CodeBlocksBefore(parts, i)
  {
    forall i, j | 0 <= i < j <= |parts| ensures
      CodeBlocksBefore(parts, i) + (if parts[i].CodePart? then 1 else 0) <= CodeBlocksBefore(parts, j)
    {
      CodeBlocksBeforeMonotone(parts, i, j);
    }
  }

  // ---------------------------------------------------------------------------
  // Copy buttons

  /** The set of block numbers showing a "copied" tick. The clipboard write and the
      two-second timer are outside the model; the timer's expiry is `Expire`. */
  class CopyState {
    var copied: set<nat>

    constructor ()
      ensures copied == {}
    {
      copied := {};
    }

    method MarkCopied(block: nat)
      modifies this
      ensures copied == old(copied) + {block}
    {
      copied := copied + {block};
    }

    method Expire(block: nat)
      modifies this
      ensures copied == old(copied) - {block}
    {
      copied := copied - {block};
    }
  }

  // ---------------------------------------------------------------------------
  // Highlighting classes

  const LanguageClasses: map<string, string> := map[
    "javascript" := "language-javascript",
    "typescript" := "language-typescript",
    "python" := "language-python",
    "html" := "language-html",
    "css" := "language-css",
    "json" := "language-json",
    "bash" := "language-bash",
    "shell" := "language-shell",
    "sql" := "language-sql",
    "jsx" := "language-jsx",
    "tsx" := "language-tsx"
  ]

  /** `getLanguageClass` restricted to the table's own entries: the lower-cased name's class,
      or "language-text". */
  function LanguageClass(language: string): (r: string)
    ensures ToLower(language) in LanguageClasses ==> r == LanguageClasses[ToLower(language)]
    ensures ToLower(language) !in LanguageClasses ==> r == DefaultLanguageClass
  {
    var key := ToLower(language);
    if key in LanguageClasses then LanguageClasses[key] else DefaultLanguageClass
  }

  lemma ToLowerIdempotent(s: string)
    ensures ToLower(ToLower(s)) == ToLower(s)
  {
  }

  /** Each table entry is "language-" followed by its own key. */
  lemma TableClassesNameTheirKey()
    ensures forall k :: k in LanguageClasses ==> LanguageClasses[k] == "language-" + k
  {
  }

  /** Every name maps to "language-" followed by either its lower-cased self (for the eleven
      known names) or "text"; case never matters. */
  lemma LanguageClassShape(language: string)
    ensures LanguageClass(language) == LanguageClass(ToLower(language))
    ensures LanguageClass(language) == "language-" + (if ToLower(language) in LanguageClasses then ToLower(language) else "text")
  {
    ToLowerIdempotent(language);
    TableClassesNameTheirKey();
  }

  /** What the property lookup on the object literal yields: an own entry's string, one of
      the two members every object inherits under an all-lower-case name, or nothing. */
  datatype LookupValue = Own(s: string) | ObjectConstructor | ObjectPrototype | Undefined

  /** `languageMap[key]` as the engine performs it: "constructor" and "__proto__" resolve to
      `Object.prototype`'s members, which are truthy but are not strings. */
  function LanguageLookupAsWritten(key: string): LookupValue {
    if key in LanguageClasses then Own(LanguageClasses[key])
    else if key == "constructor" then ObjectConstructor
    else if key == "__proto__" then ObjectPrototype
    else Undefined
  }

  /** `languageMap[language.toLowerCase()] || "language-text"` as written: the fallback is
      taken only for `undefined`. */
  function LanguageClassAsWritten(language: string): LookupValue {
    match LanguageLookupAsWritten(ToLower(language))
    case Undefined => Own(DefaultLanguageClass)
    case v => v
  }

  /** A fence tagged "constructor" gets the `Object` function, not a class name, as written;
      the table-only lookup gives "language-text". */
  lemma ConstructorLanguageAsWritten()
    ensures LanguageClassAsWritten("constructor") == ObjectConstructor
    ensures LanguageClassAsWritten("Constructor") == ObjectConstructor
    ensures LanguageClass("constructor") == DefaultLanguageClass
  {
    assert ToLower("constructor") == "constructor";
    assert ToLower("Constructor") == "constructor";
  }

  /** Away from the two inherited names the written lookup and the table-only lookup agree. */
  lemma LanguageClassAgrees(language: string)
    requires ToLower(language) != "constructor" && ToLower(language) != "__proto__"
    ensures LanguageClassAsWritten(language) == Own(LanguageClass(language))
  {
  }
}
