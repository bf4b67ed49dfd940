/**
 * The clause-rewriting helpers of the backend: the batch prompt builder,
 * the parser that cuts the model's answer at `REWRITE <digits>:` markers,
 * and the guards of `rewrite_clauses`. The chat-completion call itself is
 * an input (a `ChatCompletion.Reply`).
 */
module RewriteEngine {
  import opened Wrappers
  import opened Strings
  import opened ChatCompletion

  const PromptHeader: string :=
    "Please rewrite the following contract clauses to be more balanced and fair. "
    + "For each clause, provide a safer alternative that protects both parties.\n\n"

  /** The format instructions, in the four pieces the builder appends one by one. */
  const FooterIntro: string := "Provide rewrites in this format:\n"
  const FooterFirst: string := "REWRITE 1: [your rewrite]\n"
  const FooterSecond: string := "REWRITE 2: [your rewrite]\n"
  const FooterEtc: string := "etc."

  const PromptFooter: string := FooterIntro + FooterFirst + FooterSecond + FooterEtc

  /** What a clause gets when the answer holds too few rewrites. */
  const Filler: string := "Unable to generate rewrite for this clause."

  const MarkerWord: string := "REWRITE "

  // ---------------------------------------------------------------------
  // The prompt

  /** The block for the `i`-th clause (counting from 1). */
  function ClauseBlock(i: nat, clause: string): string {
    "CLAUSE " + NatToString(i) + ":\n" + clause + "\n\n"
  }

  /** The clause blocks, numbered 1 to |clauses| in input order. */
  function ClauseBlocks(clauses: seq<string>): string {
    if clauses == [] then []
    else ClauseBlocks(clauses[..|clauses| - 1]) + ClauseBlock(|clauses|, clauses[|clauses| - 1])
  }

  /** The prompt: fixed header, the clause blocks, fixed format footer. */
  function RewritePrompt(clauses: seq<string>): (p: string)
    ensures PromptHeader <= p
    ensures |p| == |PromptHeader| + |ClauseBlocks(clauses)| + |PromptFooter|
    ensures p[|p| - |PromptFooter|..] == PromptFooter
  {
    var h := PromptHeader + ClauseBlocks(clauses);
    var p := h + FooterIntro + FooterFirst + FooterSecond + FooterEtc;
    assert p == h + PromptFooter by {
      assert h + FooterIntro + FooterFirst + FooterSecond + FooterEtc
          == h + (FooterIntro + FooterFirst + FooterSecond + FooterEtc);
    }
    assert p[..|PromptHeader|] == PromptHeader;
    p
  }

  /** `_build_rewrite_prompt`: accumulates the prompt with `+=` in a loop. */
  method BuildRewritePrompt(clauses: seq<string>) returns (prompt: string)
    ensures prompt == RewritePrompt(clauses)
  {
    prompt := "Please rewrite the following contract clauses to be more balanced and fair. ";
    prompt := prompt + "For each clause, provide a safer alternative that protects both parties.\n\n";
    var i := 0;
    while i < |clauses|
      invariant 0 <= i <= |clauses|
      invariant prompt == PromptHeader + ClauseBlocks(clauses[..i])
    {
      ClauseBlocksStep(clauses, i);
      prompt := prompt + ("CLAUSE " + NatToString(i + 1) + ":\n" + clauses[i] + "\n\n");
      i := i + 1;
    }
    assert clauses[..|clauses|] == clauses;
    prompt := prompt + "Provide rewrites in this format:\n";
    prompt := prompt + "REWRITE 1: [your rewrite]\n";
    prompt := prompt + "REWRITE 2: [your rewrite]\n";
    prompt := prompt + "etc.";
  }

  /** The blocks of one clause more: the next block goes at the end. */
  lemma ClauseBlocksStep(clauses: seq<string>, i: nat)
    requires i < |clauses|
    ensures ClauseBlocks(clauses[..i + 1]) == ClauseBlocks(clauses[..i]) + ClauseBlock(i + 1, clauses[i])
  {
    assert clauses[..i + 1][..i] == clauses[..i];
  }

  /** The blocks of the first `j` clauses are a prefix of the blocks of all of them. */
  lemma {:induction false} ClauseBlocksPrefix(clauses: seq<string>, j: nat)
    requires j <= |clauses|
    ensures ClauseBlocks(clauses[..j]) <= ClauseBlocks(clauses)
    decreases |clauses|
  {
    if j < |clauses| {
      var init := clauses[..|clauses| - 1];
      assert init[..j] == clauses[..j];
      ClauseBlocksPrefix(init, j);
    } else {
      assert clauses[..j] == clauses;
    }
  }

  /** The builder's `+=` steps give header, blocks and footer, in that order. */
  lemma PromptParts(clauses: seq<string>)
    ensures RewritePrompt(clauses) == PromptHeader + ClauseBlocks(clauses) + PromptFooter
  {
    var h := PromptHeader + ClauseBlocks(clauses);
    assert h + FooterIntro + FooterFirst + FooterSecond + FooterEtc
      == h + (FooterIntro + FooterFirst + FooterSecond + FooterEtc);
  }

  /**
   * The prompt starts with the header and ends with the footer, and the
   * block of clause `i + 1` stands right after the blocks of the clauses
   * before it, so the clauses appear in input order.
   */
  lemma PromptLayout(clauses: seq<string>, i: nat)
    requires i < |clauses|
    ensures var p := RewritePrompt(clauses);
      var at := |PromptHeader| + |ClauseBlocks(clauses[..i])|;
      var block := ClauseBlock(i + 1, clauses[i]);
      && p[..|PromptHeader|] == PromptHeader
      && p[|p| - |PromptFooter|..] == PromptFooter
      && at + |block| <= |p|
      && p[at..at + |block|] == block
  {
    var upto := clauses[..i + 1];
    assert upto[..i] == clauses[..i];
    ClauseBlocksPrefix(clauses, i + 1);
    PromptParts(clauses);
    PlacedBetween(PromptHeader, ClauseBlocks(clauses), PromptFooter,
      ClauseBlocks(clauses[..i]), ClauseBlock(i + 1, clauses[i]));
  }

  /** Where a prefix `before + block` of the middle part lands in `h + all + f`. */
  lemma PlacedBetween(h: string, all: string, f: string, before: string, block: string)
    requires before + block <= all
    ensures var p := h + all + f;
      var at := |h| + |before|;
      && p[..|h|] == h
      && p[|p| - |f|..] == f
      && at + |block| <= |p|
      && p[at..at + |block|] == block
  {
    var p := h + all + f;
    var at := |h| + |before|;
    assert p[at..at + |block|] == all[|before|..|before| + |block|];
    assert all[|before|..|before| + |block|] == (before + block)[|before|..];
  }

  // ---------------------------------------------------------------------
  // Splitting at `REWRITE <digits>:` markers (`re.split`)

  /** The length of the run of digits starting at `i`. */
  function DigitRun(s: string, i: nat): (n: nat)
    requires i <= |s|
    ensures i + n <= |s|
    decreases |s| - i
  {
    if i < |s| && IsDigit(s[i]) then 1 + DigitRun(s, i + 1) else 0
  }

  /** The run is made of digits and is maximal. */
  lemma {:induction false} DigitRunSpan(s: string, i: nat)
    requires i <= |s|
    ensures forall k :: i <= k < i + DigitRun(s, i) ==> IsDigit(s[k])
    ensures i + DigitRun(s, i) < |s| ==> !IsDigit(s[i + DigitRun(s, i)])
    decreases |s| - i
  {
    if i < |s| && IsDigit(s[i]) {
      DigitRunSpan(s, i + 1);
    }
  }

  /** A run of digits followed by a non-digit is what `DigitRun` measures. */
  lemma {:induction false} DigitRunExact(s: string, i: nat, j: nat)
    requires i <= j < |s| && !IsDigit(s[j])
    requires forall k :: i <= k < j ==> IsDigit(s[k])
    ensures DigitRun(s, i) == j - i
    decreases j - i
  {
    if i < j {
      DigitRunExact(s, i + 1, j);
    }
  }

  /** `w` occurs in `s` at position `i`, compared letter by letter. */
  predicate HasWordAt(s: string, i: nat, w: string)
    requires i <= |s|
    decreases |w|
  {
    w == [] || (i < |s| && s[i] == w[0] && HasWordAt(s, i + 1, w[1..]))
  }

  lemma {:induction false} HasWordAtSlice(s: string, i: nat, w: string)
    requires i <= |s|
    ensures HasWordAt(s, i, w) <==> i + |w| <= |s| && s[i..i + |w|] == w
    decreases |w|
  {
    if w != [] && i < |s| {
      HasWordAtSlice(s, i + 1, w[1..]);
      if i + |w| <= |s| {
        assert s[i..i + |w|] == [s[i]] + s[i + 1..i + 1 + |w[1..]|];
        assert w == [w[0]] + w[1..];
      }
    }
  }

  /** `m` is a whole match of the pattern `REWRITE \d+:`. */
  ghost predicate IsMarker(m: string) {
    && |m| >= 10
    && m[..8] == MarkerWord
    && m[|m| - 1] == ':'
    && forall k :: 8 <= k < |m| - 1 ==> IsDigit(m[k])
  }

  /**
   * The length of the marker at the front of `t`, or 0 if `t` does not
   * start with one (`MarkerSound` and `MarkerComplete` say that this is
   * the match).
   */
  function MarkerLength(t: string): (n: nat)
    ensures n <= |t|
    ensures n == 0 || n >= 10
  {
    if 8 <= |t| && HasWordAt(t, 0, MarkerWord) then
      var d := DigitRun(t, 8);
      if d > 0 && 8 + d < |t| && t[8 + d] == ':' then 9 + d else 0
    else 0
  }

  /** What `MarkerLength` reports is a marker. */
  lemma MarkerSound(t: string)
    requires MarkerLength(t) > 0
    ensures IsMarker(t[..MarkerLength(t)])
  {
    HasWordAtSlice(t, 0, MarkerWord);
    DigitRunSpan(t, 8);
    var n := MarkerLength(t);
    var m := t[..n];
    assert m[..8] == t[0..8];
    forall k | 8 <= k < n - 1 ensures IsDigit(m[k]) {
      assert m[k] == t[k];
    }
  }

  /** Every marker at the front of `t` is the one `MarkerLength` reports: the match is unique. */
  lemma MarkerComplete(t: string, j: nat)
    requires 0 < j <= |t| && IsMarker(t[..j])
    ensures MarkerLength(t) == j
  {
    var m := t[..j];
    assert m[..8] == t[0..8];
    HasWordAtSlice(t, 0, MarkerWord);
    forall k | 8 <= k < j - 1 ensures IsDigit(t[k]) {
      assert m[k] == t[k];
    }
    assert m[|m| - 1] == t[j - 1];
    DigitRunExact(t, 8, j - 1);
  }

  /** A marker starts with the letter `R`. */
  lemma MarkerStart(t: string)
    ensures MarkerLength(t) > 0 ==> t[0] == 'R'
  {
  }

  /** A marker holds no line break. */
  lemma MarkerSpan(t: string)
    ensures forall j :: 0 <= j < MarkerLength(t) ==> t[j] != '\n'
  {
    var n := MarkerLength(t);
    if n > 0 {
      HasWordAtSlice(t, 0, MarkerWord);
      DigitRunSpan(t, 8);
      forall j | 0 <= j < n ensures t[j] != '\n' {
        if j < 8 {
          assert t[0..8][j] == t[j];
        }
      }
    }
  }

  /** A marker found at the front of one text is found wherever the same letters stand. */
  lemma MarkerWindow(s: string, t: string)
    requires MarkerLength(s) > 0 && MarkerLength(s) <= |t|
    requires s[..MarkerLength(s)] == t[..MarkerLength(s)]
    ensures MarkerLength(t) == MarkerLength(s)
  {
    MarkerSound(s);
    MarkerComplete(t, MarkerLength(s));
  }

  /** A line break ends the text a marker can be read from. */
  lemma MarkerCut(u: string, v: string)
    requires v != [] && v[0] == '\n'
    ensures MarkerLength(u + v) == MarkerLength(u)
  {
    var s := u + v;
    var n1 := MarkerLength(u);
    var n2 := MarkerLength(s);
    if n1 > 0 {
      assert s[..n1] == u[..n1];
      MarkerWindow(u, s);
    } else if n2 > 0 {
      MarkerSpan(s);
      assert s[|u|] == '\n';
      assert s[..n2] == u[..n2];
      MarkerWindow(s, u);
    }
  }

  /** No match of the pattern lies anywhere in `t`. */
  ghost predicate HasNoMarker(t: string) {
    forall i, j :: 0 <= i < j <= |t| ==> !IsMarker(t[i..j])
  }

  /** In a text without a match no marker starts anywhere. */
  lemma NoMarkerStarts(t: string)
    requires HasNoMarker(t)
    ensures forall k :: 0 <= k <= |t| ==> MarkerLength(t[k..]) == 0
  {
    forall k | 0 <= k <= |t| ensures MarkerLength(t[k..]) == 0 {
      MarkerSoundAt(t, k);
    }
  }

  /** `MarkerSound` for the marker at position `k` of `t`, as a slice of `t`. */
  lemma MarkerSoundAt(t: string, k: nat)
    requires k <= |t|
    ensures var n := MarkerLength(t[k..]); n > 0 ==> IsMarker(t[k..k + n])
  {
    var n := MarkerLength(t[k..]);
    if n > 0 {
      MarkerSound(t[k..]);
      assert t[k..][..n] == t[k..k + n];
    }
  }

  /**
   * `re.split(r'REWRITE \d+:', s)`, scanning from the left: a marker at
   * the front ends the current piece (here an empty one) and the rest is
   * split after it; any other letter joins the first piece of the rest.
   * Matches are thus taken leftmost first and never overlap.
   */
  function Split(s: string): (parts: seq<string>)
    ensures |parts| >= 1
    decreases |s|
  {
    if s == [] then [[]]
    else
      var n := MarkerLength(s);
      if n > 0 then [[]] + Split(s[n..])
      else var rest := Split(s[1..]); [[s[0]] + rest[0]] + rest[1..]
  }

  /**
   * Text in which no marker starts is glued to the first piece and changes
   * none of the others: what comes before the first marker is only ever
   * piece 0.
   */
  lemma {:induction false} SplitUnmarkedPrefix(u: string, v: string)
    requires forall k :: 0 <= k < |u| ==> MarkerLength((u + v)[k..]) == 0
    ensures Split(u + v)[0] == u + Split(v)[0]
    ensures Split(u + v)[1..] == Split(v)[1..]
    decreases |u|
  {
    if u != [] {
      var s := u + v;
      assert s[0..] == s;
      assert s[1..] == u[1..] + v;
      forall k | 0 <= k < |u[1..]| ensures MarkerLength((u[1..] + v)[k..]) == 0 {
        assert (u[1..] + v)[k..] == s[k + 1..];
      }
      SplitUnmarkedPrefix(u[1..], v);
      assert [u[0]] + (u[1..] + Split(v)[0]) == u + Split(v)[0];
    } else {
      assert u + v == v;
    }
  }

  /** A text in which no marker starts is a single piece. */
  lemma SplitUnmarked(s: string)
    requires forall k :: 0 <= k < |s| ==> MarkerLength(s[k..]) == 0
    ensures Split(s) == [s]
  {
    assert s + [] == s;
    SplitUnmarkedPrefix(s, []);
  }

  /** The markers `Split` cuts at, left to right, following the same scan. */
  function Matches(s: string): seq<string>
    decreases |s|
  {
    if s == [] then []
    else
      var n := MarkerLength(s);
      if n > 0 then [s[..n]] + Matches(s[n..]) else Matches(s[1..])
  }

  /** The pieces with the markers put back between them. */
  function Interleave(parts: seq<string>, marks: seq<string>): string
    requires |parts| == |marks| + 1
    decreases |marks|
  {
    if marks == [] then parts[0] else parts[0] + marks[0] + Interleave(parts[1..], marks[1..])
  }

  /** A letter glued before piece 0 stands before the whole rejoined text. */
  lemma InterleaveCons(c: string, parts: seq<string>, marks: seq<string>)
    requires |parts| == |marks| + 1
    ensures Interleave([c + parts[0]] + parts[1..], marks) == c + Interleave(parts, marks)
  {
    var glued := [c + parts[0]] + parts[1..];
    assert glued[1..] == parts[1..];
  }

  /** The pieces of `s` and the markers between them: one marker fewer, each a match, rejoining to `s`. */
  ghost predicate Rejoins(s: string) {
    && |Matches(s)| == |Split(s)| - 1
    && (forall k :: 0 <= k < |Matches(s)| ==> IsMarker(Matches(s)[k]))
    && Interleave(Split(s), Matches(s)) == s
  }

  /**
   * `re.split` loses and invents nothing: there is one marker fewer than
   * pieces, each is a match of `REWRITE \d+:`, and the pieces with the
   * markers between them give back the text.
   */
  lemma {:induction false} SplitRejoin(s: string)
    ensures |Matches(s)| == |Split(s)| - 1
    ensures forall k :: 0 <= k < |Matches(s)| ==> IsMarker(Matches(s)[k])
    ensures Interleave(Split(s), Matches(s)) == s
    decreases |s|
  {
    if s == [] {
    } else if MarkerLength(s) > 0 {
      SplitRejoin(s[MarkerLength(s)..]);
      RejoinAtMarker(s);
    } else {
      SplitRejoin(s[1..]);
      RejoinAtLetter(s);
    }
  }

  /** A marker at the front: an empty piece, the marker, then the rest. */
  lemma RejoinAtMarker(s: string)
    requires s != [] && MarkerLength(s) > 0
    requires Rejoins(s[MarkerLength(s)..])
    ensures Rejoins(s)
  {
    var n := MarkerLength(s);
    MarkerSound(s);
    assert Split(s) == [[]] + Split(s[n..]);
    assert Matches(s) == [s[..n]] + Matches(s[n..]);
    assert Split(s)[1..] == Split(s[n..]);
    assert Matches(s)[1..] == Matches(s[n..]);
    assert s == [] + s[..n] + s[n..];
  }

  /** Any other letter at the front joins piece 0 of the rest. */
  lemma RejoinAtLetter(s: string)
    requires s != [] && MarkerLength(s) == 0
    requires Rejoins(s[1..])
    ensures Rejoins(s)
  {
    var rest := Split(s[1..]);
    assert Split(s) == [[s[0]] + rest[0]] + rest[1..];
    assert Matches(s) == Matches(s[1..]);
    InterleaveCons([s[0]], rest, Matches(s[1..]));
    assert s == [s[0]] + s[1..];
  }

  /** The first match is the leftmost: no marker starts inside piece 0. */
  lemma {:induction false} SplitFirstUnmarked(s: string)
    ensures Split(s)[0] <= s
    ensures forall k :: 0 <= k < |Split(s)[0]| ==> MarkerLength(s[k..]) == 0
    decreases |s|
  {
    if s != [] && MarkerLength(s) == 0 {
      SplitFirstUnmarked(s[1..]);
      var p := Split(s)[0];
      forall k | 0 <= k < |p| ensures MarkerLength(s[k..]) == 0 {
        if k > 0 {
          assert s[k..] == s[1..][k - 1..];
        }
      }
    }
  }

  /**
   * After the first cut, splitting carries on over the rest of the text:
   * the later pieces and markers are those of the text after piece 0 and
   * the first marker.
   */
  lemma {:induction false} SplitRest(s: string)
    requires |Split(s)| > 1
    ensures |Matches(s)| >= 1
    ensures var off := |Split(s)[0]| + |Matches(s)[0]|;
      && off <= |s|
      && Split(s)[1..] == Split(s[off..])
      && Matches(s)[1..] == Matches(s[off..])
    decreases |s|
  {
    SplitRejoin(s);
    var n := MarkerLength(s);
    if n == 0 {
      var rest := Split(s[1..]);
      SplitRejoin(s[1..]);
      SplitRest(s[1..]);
      var off' := |rest[0]| + |Matches(s[1..])[0]|;
      assert s[1..][off'..] == s[1 + off'..];
    }
  }

  /** `piece` stands in `s` at `off`, and no marker starts at any position inside it. */
  ghost predicate UnmarkedAt(s: string, off: nat, piece: string) {
    && off + |piece| <= |s|
    && s[off..off + |piece|] == piece
    && forall j :: off <= j < off + |piece| ==> MarkerLength(s[j..]) == 0
  }

  /**
   * `re.split` cuts at every match: piece `k` stands in `s` at some offset,
   * and no marker starts at any position inside it.
   */
  lemma {:induction false} SplitPieceUnmarked(s: string, k: nat) returns (off: nat)
    requires k < |Split(s)|
    ensures off + |Split(s)[k]| <= |s|
    ensures s[off..off + |Split(s)[k]|] == Split(s)[k]
    ensures forall j :: off <= j < off + |Split(s)[k]| ==> MarkerLength(s[j..]) == 0
    decreases k, 1
  {
    if k == 0 {
      SplitFirstUnmarked(s);
      off := 0;
    } else {
      off := LaterPieceUnmarked(s, k);
    }
  }

  /** `SplitPieceUnmarked` for a piece after the first: it is a piece of the text after the first marker. */
  lemma {:induction false} LaterPieceUnmarked(s: string, k: nat) returns (off: nat)
    requires 0 < k < |Split(s)|
    ensures UnmarkedAt(s, off, Split(s)[k])
    decreases k, 0
  {
    var parts := Split(s);
    SplitRest(s);
    var first := |parts[0]| + |Matches(s)[0]|;
    var t := s[first..];
    assert parts[k] == Split(t)[k - 1];
    var inner := SplitPieceUnmarked(t, k - 1);
    UnmarkedShift(s, first, inner, parts[k]);
    off := first + inner;
  }

  /** An unmarked stretch of the suffix `s[first..]` is one of `s`, shifted by `first`. */
  lemma UnmarkedShift(s: string, first: nat, inner: nat, piece: string)
    requires first <= |s| && UnmarkedAt(s[first..], inner, piece)
    ensures UnmarkedAt(s, first + inner, piece)
  {
    assert s[first + inner..first + inner + |piece|] == s[first..][inner..inner + |piece|];
    forall j | first + inner <= j < first + inner + |piece| ensures MarkerLength(s[j..]) == 0 {
      assert s[j..] == s[first..][j - first..];
    }
  }

  // ---------------------------------------------------------------------
  // Parsing the answer (`_parse_rewrites`)

  /** The piece, stripped, unless it is blank: nothing for a blank piece, else one stripped non-blank rewrite. */
  function KeptPart(part: string): (kept: seq<string>)
    ensures kept == [] <==> AllSpace(Python, part)
    ensures |kept| <= 1
    ensures kept != [] ==> kept[0] != [] && IsStripped(Python, kept[0])
  {
    var t := Strip(Python, part);
    if t == [] then [] else [t]
  }

  /** The loop of `_parse_rewrites`: each piece stripped, blank ones dropped. */
  function Survivors(parts: seq<string>): (kept: seq<string>)
    ensures |kept| <= |parts|
  {
    if parts == [] then [] else KeptPart(parts[0]) + Survivors(parts[1..])
  }

  /** What survives is stripped and not blank. */
  lemma {:induction false} SurvivorsClean(parts: seq<string>)
    ensures forall k :: 0 <= k < |Survivors(parts)| ==> Survivors(parts)[k] != [] && IsStripped(Python, Survivors(parts)[k])
  {
    if parts != [] {
      SurvivorsClean(parts[1..]);
    }
  }

  /** Surviving pieces keep their order and leave no holes. */
  lemma {:induction false} SurvivorsAppend(a: seq<string>, b: seq<string>)
    ensures Survivors(a + b) == Survivors(a) + Survivors(b)
    decreases |a|
  {
    if a == [] {
      assert a + b == b;
    } else {
      assert (a + b)[1..] == a[1..] + b;
      SurvivorsAppend(a[1..], b);
    }
  }

  /** One more piece: it survives, stripped, unless it is blank. */
  lemma SurvivorsSnoc(parts: seq<string>, part: string)
    ensures Survivors(parts + [part]) == Survivors(parts) + KeptPart(part)
  {
    SurvivorsAppend(parts, [part]);
    assert [part][1..] == [];
  }

  /**
   * The rewrites found before padding: the survivors, or else the whole
   * stripped answer. An answer that is not blank always yields one, and
   * there are never more than pieces.
   */
  function Candidates(responseText: string): (c: seq<string>)
    ensures c == [] ==> AllSpace(Python, responseText)
    ensures |c| <= |Split(responseText)|
  {
    var kept := Survivors(Split(responseText)[1..]);
    if |kept| == 0 && Strip(Python, responseText) != [] then [Strip(Python, responseText)] else kept
  }

  /** `n` copies of `Filler`. */
  function Fillers(n: nat): (r: seq<string>)
    ensures |r| == n
  {
    if n == 0 then [] else Fillers(n - 1) + [Filler]
  }

  lemma {:induction false} FillersAll(n: nat)
    ensures forall k :: 0 <= k < n ==> Fillers(n)[k] == Filler
  {
    if n > 0 {
      FillersAll(n - 1);
    }
  }

  /** Padding with `Filler` or truncation to exactly `count` entries. */
  function Fit(rewrites: seq<string>, count: nat): (r: seq<string>)
    ensures |r| == count
  {
    if |rewrites| >= count then rewrites[..count]
    else rewrites + Fillers(count - |rewrites|)
  }

  /** `Fit` keeps the first `count` rewrites in order and fills the rest with `Filler`. */
  lemma FitShape(rewrites: seq<string>, count: nat)
    ensures forall k :: 0 <= k < count ==> Fit(rewrites, count)[k] == if k < |rewrites| then rewrites[k] else Filler
  {
    if |rewrites| < count {
      FillersAll(count - |rewrites|);
    }
  }

  /** A list of exactly `count` rewrites is neither padded nor cut. */
  lemma FitExact(rewrites: seq<string>)
    ensures Fit(rewrites, |rewrites|) == rewrites
  {
    assert rewrites[..|rewrites|] == rewrites;
  }

  /**
   * What `_parse_rewrites(responseText, expectedCount)` returns: exactly
   * `expectedCount` non-blank, stripped rewrites.
   */
  function ParsedRewrites(responseText: string, expectedCount: nat): (r: seq<string>)
    ensures |r| == expectedCount
  {
    Fit(Candidates(responseText), expectedCount)
  }

  /** Every rewrite `_parse_rewrites` returns is stripped and not blank. */
  lemma ParsedRewritesClean(responseText: string, expectedCount: nat)
    ensures forall k :: 0 <= k < expectedCount ==>
      ParsedRewrites(responseText, expectedCount)[k] != [] && IsStripped(Python, ParsedRewrites(responseText, expectedCount)[k])
  {
    var c := Candidates(responseText);
    SurvivorsClean(Split(responseText)[1..]);
    assert forall k :: 0 <= k < |c| ==> c[k] != [] && IsStripped(Python, c[k]);
    assert Filler[0] == 'U' && Filler[|Filler| - 1] == '.';
    FitShape(c, expectedCount);
  }

  /** `_parse_rewrites`: collects the pieces, falls back to the whole answer, pads and cuts. */
  method ParseRewrites(responseText: string, expectedCount: nat) returns (rewrites: seq<string>)
    ensures rewrites == ParsedRewrites(responseText, expectedCount)
  {
    var parts := Split(responseText);
    rewrites := CollectRewrites(parts[1..]);
    CandidatesOf(responseText, rewrites);
    if |rewrites| == 0 && Strip(Python, responseText) != [] {
      rewrites := rewrites + [Strip(Python, responseText)];
    }
    rewrites := PadRewrites(rewrites, expectedCount);
  }

  /** The `for` loop of `_parse_rewrites` over the pieces after the first marker. */
  method CollectRewrites(later: seq<string>) returns (rewrites: seq<string>)
    ensures rewrites == Survivors(later)
  {
    rewrites := [];
    var j := 0;
    while j < |later|
      invariant 0 <= j <= |later|
      invariant rewrites == Survivors(later[..j])
    {
      var rewrite := Strip(Python, later[j]);
      SurvivorsSnoc(later[..j], later[j]);
      assert later[..j + 1] == later[..j] + [later[j]];
      if rewrite != [] {
        rewrites := rewrites + [rewrite];
      }
      j := j + 1;
    }
    assert later[..j] == later;
  }

  /** The `while` loop of `_parse_rewrites` and its closing slice. */
  method PadRewrites(found: seq<string>, expectedCount: nat) returns (rewrites: seq<string>)
    ensures rewrites == Fit(found, expectedCount)
  {
    rewrites := found;
    while |rewrites| < expectedCount
      invariant |found| <= |rewrites|
      invariant rewrites == found + Fillers(|rewrites| - |found|)
      invariant |rewrites| > |found| ==> |rewrites| <= expectedCount
      decreases expectedCount - |rewrites|
    {
      assert Fillers(|rewrites| + 1 - |found|) == Fillers(|rewrites| - |found|) + [Filler];
      rewrites := rewrites + ["Unable to generate rewrite for this clause."];
    }
    assert |rewrites| > |found| ==> rewrites[..expectedCount] == rewrites;
    rewrites := rewrites[..expectedCount];
  }

  /** `Candidates` of an answer whose surviving pieces are `kept`. */
  lemma CandidatesOf(responseText: string, kept: seq<string>)
    requires kept == Survivors(Split(responseText)[1..])
    ensures Candidates(responseText)
         == if |kept| == 0 && Strip(Python, responseText) != [] then [Strip(Python, responseText)] else kept
  {
  }

  /** An answer in which no marker starts, and which is not blank, becomes the first rewrite. */
  lemma UnmarkedAnswer(responseText: string, expectedCount: nat)
    requires forall k :: 0 <= k < |responseText| ==> MarkerLength(responseText[k..]) == 0
    requires Strip(Python, responseText) != []
    requires expectedCount > 0
    ensures ParsedRewrites(responseText, expectedCount)
         == [Strip(Python, responseText)] + Fillers(expectedCount - 1)
  {
    SplitUnmarked(responseText);
    assert Split(responseText)[1..] == [];
    var c := Candidates(responseText);
    assert c == [Strip(Python, responseText)];
    if expectedCount == 1 {
      assert Fit(c, 1) == c[..1];
    }
  }

  /**
   * When every piece after a marker is blank but the answer is not, the
   * whole stripped answer, markers included, becomes the first rewrite.
   */
  lemma BlankPiecesFallBack(responseText: string, expectedCount: nat)
    requires forall k :: 1 <= k < |Split(responseText)| ==> AllSpace(Python, Split(responseText)[k])
    requires Strip(Python, responseText) != []
    requires expectedCount > 0
    ensures ParsedRewrites(responseText, expectedCount)
         == [Strip(Python, responseText)] + Fillers(expectedCount - 1)
  {
    var top := Strip(Python, responseText);
    NoSurvivors(Split(responseText)[1..]);
    assert Candidates(responseText) == [top];
    FitOne(top, expectedCount);
  }

  /** One rewrite fitted to `count` places is followed by fillers. */
  lemma FitOne(r: string, count: nat)
    requires count > 0
    ensures Fit([r], count) == [r] + Fillers(count - 1)
  {
    if count == 1 {
      assert [r][..1] == [r];
    }
  }

  /** Blank pieces leave no survivors. */
  lemma {:induction false} NoSurvivors(parts: seq<string>)
    requires forall k :: 0 <= k < |parts| ==> AllSpace(Python, parts[k])
    ensures Survivors(parts) == []
  {
    if parts != [] {
      NoSurvivors(parts[1..]);
    }
  }

  /** A bare marker is kept whole: `"REWRITE 1:"` parses to itself. */
  lemma BareMarker()
    ensures ParsedRewrites("REWRITE 1:", 1) == ["REWRITE 1:"]
  {
    var s := "REWRITE 1:";
    assert IsMarker(s[..10]);
    MarkerComplete(s, 10);
    assert s[10..] == [];
    assert Split(s) == [[], []];
    StripStripped(Python, s);
    BlankPiecesFallBack(s, 1);
  }

  /** A blank answer gives only fillers. */
  lemma BlankAnswer(responseText: string, expectedCount: nat)
    requires Strip(Python, responseText) == []
    ensures ParsedRewrites(responseText, expectedCount) == Fillers(expectedCount)
  {
    forall k | 0 <= k < |responseText| ensures MarkerLength(responseText[k..]) == 0 {
      MarkerStart(responseText[k..]);
      assert IsSpace(Python, responseText[k]);
    }
    SplitUnmarked(responseText);
  }

  /**
   * Text before the first marker is discarded: when some piece after a
   * marker survives, a preface in which no marker starts changes nothing.
   */
  lemma PrefaceDiscarded(preface: string, answer: string, expectedCount: nat)
    requires forall k :: 0 <= k < |preface| ==> MarkerLength((preface + answer)[k..]) == 0
    requires Survivors(Split(answer)[1..]) != []
    ensures ParsedRewrites(preface + answer, expectedCount) == ParsedRewrites(answer, expectedCount)
  {
    SplitUnmarkedPrefix(preface, answer);
  }

  // ---------------------------------------------------------------------
  // Round trip with the format the prompt asks for

  /** An answer in the format of the prompt footer, numbered from `first`. */
  function FormatRewrites(rewrites: seq<string>, first: nat): string
    decreases |rewrites|
  {
    if rewrites == [] then []
    else MarkerWord + NatToString(first) + ": " + rewrites[0] + "\n" + FormatRewrites(rewrites[1..], first + 1)
  }

  /** The piece that follows the marker of `rewrite` in a formatted answer. */
  function Body(rewrite: string): string {
    " " + rewrite + "\n"
  }

  /** The pieces that follow the markers of a formatted answer. */
  function Bodies(rewrites: seq<string>): (b: seq<string>)
    ensures |b| == |rewrites|
    ensures forall k :: 0 <= k < |b| ==> b[k] == Body(rewrites[k])
    decreases |rewrites|
  {
    if rewrites == [] then [] else [Body(rewrites[0])] + Bodies(rewrites[1..])
  }

  /** No marker starts inside the body of a marker-free rewrite, whatever follows. */
  lemma BodyUnmarked(r: string, rest: string)
    requires HasNoMarker(r)
    ensures forall k :: 0 <= k < |Body(r)| ==> MarkerLength((Body(r) + rest)[k..]) == 0
  {
    var tail := "\n" + rest;
    var s := Body(r) + rest;
    assert s == " " + (r + tail);
    NoMarkerStarts(r);
    MarkerStart(s[0..]);
    forall k | 1 <= k < |Body(r)| ensures MarkerLength(s[k..]) == 0 {
      assert s[k..] == r[k - 1..] + tail;
      MarkerCut(r[k - 1..], tail);
    }
  }

  /** The marker `REWRITE <first>:` that the format writes. */
  lemma FormatMarker(first: nat)
    ensures IsMarker(MarkerWord + NatToString(first) + ":")
  {
    var mark := MarkerWord + NatToString(first) + ":";
    assert mark[..8] == MarkerWord;
    forall k | 8 <= k < |mark| - 1 ensures IsDigit(mark[k]) {
      assert mark[k] == NatToString(first)[k - 8];
    }
  }

  /** Splitting a formatted answer gives an empty piece 0 and then the bodies. */
  lemma {:induction false} SplitFormatted(rewrites: seq<string>, first: nat)
    requires forall k :: 0 <= k < |rewrites| ==> HasNoMarker(rewrites[k])
    ensures Split(FormatRewrites(rewrites, first)) == [[]] + Bodies(rewrites)
    decreases |rewrites|
  {
    if rewrites != [] {
      var r := rewrites[0];
      var rest := FormatRewrites(rewrites[1..], first + 1);
      var mark := MarkerWord + NatToString(first) + ":";
      var s := FormatRewrites(rewrites, first);
      var after := Body(r) + rest;
      assert s == mark + after;
      FormatMarker(first);
      assert s[..|mark|] == mark;
      MarkerComplete(s, |mark|);
      assert s[|mark|..] == after;
      SplitFormatted(rewrites[1..], first + 1);
      SplitBodyFirst(r, rest, Bodies(rewrites[1..]));
    }
  }

  /** One step of `SplitFormatted`: a body glued before a formatted rest. */
  lemma SplitBodyFirst(r: string, rest: string, bodies: seq<string>)
    requires HasNoMarker(r)
    requires Split(rest) == [[]] + bodies
    ensures Split(Body(r) + rest) == [Body(r)] + bodies
  {
    BodyUnmarked(r, rest);
    SplitUnmarkedPrefix(Body(r), rest);
    assert Body(r) + [] == Body(r);
    var sa := Split(Body(r) + rest);
    assert sa == [sa[0]] + sa[1..];
  }

  /** Every body of a non-blank stripped rewrite survives, as that rewrite. */
  lemma {:induction false} SurvivingBodies(rewrites: seq<string>)
    requires forall k :: 0 <= k < |rewrites| ==> rewrites[k] != [] && IsStripped(Python, rewrites[k])
    ensures Survivors(Bodies(rewrites)) == rewrites
    decreases |rewrites|
  {
    if rewrites != [] {
      var bodies := Bodies(rewrites);
      assert bodies[1..] == Bodies(rewrites[1..]);
      KeptBody(rewrites[0]);
      SurvivingBodies(rewrites[1..]);
    }
  }

  /** The body of a non-blank stripped rewrite is kept as that rewrite. */
  lemma KeptBody(r: string)
    requires r != [] && IsStripped(Python, r)
    ensures KeptPart(Body(r)) == [r]
  {
    assert AllSpace(Python, " ") && AllSpace(Python, "\n");
    StripPadded(Python, " ", r, "\n");
  }

  /**
   * An answer written in the requested format, one marker per rewrite
   * (numbered from `first`; the prompt asks for 1, 2, ...), parses back to exactly those rewrites (each non-blank, stripped and
   * free of markers).
   */
  lemma FormattedRoundTrip(rewrites: seq<string>, first: nat)
    requires forall k :: 0 <= k < |rewrites| ==> rewrites[k] != [] && IsStripped(Python, rewrites[k]) && HasNoMarker(rewrites[k])
    ensures ParsedRewrites(FormatRewrites(rewrites, first), |rewrites|) == rewrites
  {
    SplitFormatted(rewrites, first);
    ParsedBodies(FormatRewrites(rewrites, first), rewrites);
  }

  /** An answer that splits into an empty piece 0 and the bodies of the rewrites parses back to them. */
  lemma ParsedBodies(s: string, rewrites: seq<string>)
    requires forall k :: 0 <= k < |rewrites| ==> rewrites[k] != [] && IsStripped(Python, rewrites[k])
    requires Split(s) == [[]] + Bodies(rewrites)
    requires rewrites == [] ==> s == []
    ensures ParsedRewrites(s, |rewrites|) == rewrites
  {
    assert Split(s)[1..] == Bodies(rewrites);
    SurvivingBodies(rewrites);
    assert Candidates(s) == rewrites;
    FitExact(rewrites);
  }

  // ---------------------------------------------------------------------
  // `rewrite_clauses`

  /**
   * `rewrite_clauses(clauses)` when the client is configured iff `hasClient`
   * and the chat call answers `reply`. Returns the rewrites (or `None`) and
   * the prompt it sent (or `None` when it made no call).
   */
  method RewriteClauses(hasClient: bool, clauses: seq<string>, reply: Reply)
    returns (result: Option<seq<string>>, sent: Option<string>)
    ensures !hasClient ==> result == None && sent == None
    ensures hasClient && clauses == [] ==> result == Some([]) && sent == None
    ensures hasClient && clauses != [] ==> sent == Some(RewritePrompt(clauses))
    ensures hasClient && clauses != [] ==>
      result == match reply
        case Content(Some(text)) => Some(ParsedRewrites(text, |clauses|))
        case _ => None
    ensures result.Some? ==> |result.value| == |clauses|
  {
    if !hasClient {
      return None, None;
    }
    if clauses == [] {
      return Some([]), None;
    }
    var prompt := BuildRewritePrompt(clauses);
    sent := Some(prompt);
    match reply
    case Content(Some(text)) =>
      var rewrites := ParseRewrites(text, |clauses|);
      result := Some(rewrites);
    case _ =>
      result := None;
  }
}
