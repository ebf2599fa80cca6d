/** Pulling the JSON payload out of a language model's reply, as both the
    Anthropic proxy and the OpenAI client do: try the regular expressions
    /```json\n([\s\S]*?)\n```/, then /```\n([\s\S]*?)\n```/, then
    /{[\s\S]*}/; take capture group 1 unless it is empty or absent, else the
    whole match; with no match take the whole reply. The client then deletes
    fence markers with /```json\n|```\n|```/g when the candidate starts with ```. */
module JsonExtraction {
  import opened Common
  import opened Text

  const JsonFenceOpen := "```json\n"
  const PlainFenceOpen := "```\n"
  const FenceClose := "\n```"
  const Fence := "```"

  /** The half-open index range [start, end) of a match or a capture group. */
  datatype Span = Span(start: nat, end: nat)

  /** A regular-expression match: the whole match, and group 1 when the pattern has one. */
  datatype RegexMatch = RegexMatch(whole: Span, group: Option<Span>)

  predicate SpanIn(s: string, sp: Span) {
    sp.start <= sp.end <= |s|
  }

  predicate MatchIn(s: string, m: RegexMatch) {
    SpanIn(s, m.whole) && (m.group.Some? ==> SpanIn(s, m.group.value))
  }

  function Slice(s: string, sp: Span): string
    requires SpanIn(s, sp)
  {
    s[sp.start..sp.end]
  }

  /** `s.match(/<open>([\s\S]*?)\n```/)`: the leftmost opening marker, then the
      nearest closing "\n```" after it (the lazy group). If the first opening
      has no closing after it, no later opening has one either. */
  function FencedMatch(s: string, open: string): (r: Option<RegexMatch>)
    ensures r.Some? ==> MatchIn(s, r.value) && r.value.group.Some?
    ensures r.Some? ==>
              var i, g := r.value.whole.start, r.value.group.value;
              OccursAt(s, open, i) && (forall k: nat :: k < i ==> !OccursAt(s, open, k)) &&
              g.start == i + |open| && OccursAt(s, FenceClose, g.end) &&
              r.value.whole.end == g.end + |FenceClose| &&
              forall k: nat :: g.start <= k < g.end ==> !OccursAt(s, FenceClose, k)
  {
    match FindFrom(s, open, 0)
    case None => None
    case Some(i) =>
      match FindFrom(s, FenceClose, i + |open|)
      case None => None
      case Some(j) => Some(RegexMatch(Span(i, j + |FenceClose|), Some(Span(i + |open|, j))))
  }

  /** The fenced pattern matches exactly when some opening marker is followed,
      at or after its end, by a closing marker. */
  lemma FencedMatchExists(s: string, open: string)
    ensures FencedMatch(s, open).Some? <==>
              exists i: nat, j: nat :: OccursAt(s, open, i) && i + |open| <= j && OccursAt(s, FenceClose, j)
  {
    var r := FencedMatch(s, open);
    if r.Some? {
      var i, j := r.value.whole.start, r.value.group.value.end;
      assert OccursAt(s, open, i) && i + |open| <= j && OccursAt(s, FenceClose, j);
    } else {
      forall i: nat, j: nat | OccursAt(s, open, i) && i + |open| <= j
        ensures !OccursAt(s, FenceClose, j)
      {
        var first := FindFrom(s, open, 0);
        assert first.Some? && first.value <= i;
        var close := FindFrom(s, FenceClose, first.value + |open|);
        assert close.None?;
      }
    }
  }

  /** `s.match(/{[\s\S]*}/)`: from the first '{' to the last '}' (greedy), when
      that '}' comes after the '{'. */
  function BraceMatch(s: string): (r: Option<RegexMatch>)
    ensures r.Some? ==> MatchIn(s, r.value) && r.value.group.None?
    ensures r.Some? ==>
              var w := r.value.whole;
              w.start + 1 < w.end && s[w.start] == '{' && s[w.end - 1] == '}' &&
              (forall k :: 0 <= k < w.start ==> s[k] != '{') &&
              (forall k :: w.end <= k < |s| ==> s[k] != '}')
  {
    match FindChar(s, '{', 0)
    case None => None
    case Some(i) =>
      match FindLast(s, '}')
      case None => None
      case Some(j) => if i < j then Some(RegexMatch(Span(i, j + 1), None)) else None
  }

  /** The brace pattern matches exactly when some '{' precedes some '}'. */
  lemma BraceMatchExists(s: string)
    ensures BraceMatch(s).Some? <==> exists i, j :: 0 <= i < j < |s| && s[i] == '{' && s[j] == '}'
  {
    var r := BraceMatch(s);
    if r.Some? {
      var i, j := r.value.whole.start, r.value.whole.end - 1;
      assert 0 <= i < j < |s| && s[i] == '{' && s[j] == '}';
    } else {
      forall i, j | 0 <= i < j < |s| && s[i] == '{'
        ensures s[j] != '}'
      {
        var first := FindChar(s, '{', 0);
        assert first.Some? && first.value <= i;
        var last := FindLast(s, '}');
        if last.Some? {
          assert last.value <= first.value;
        }
      }
    }
  }

  /** `m1 || m2 || m3`: the first of the three patterns that matches. A
      ```json fence wins whenever there is one, a plain fence when there is no
      ```json one, and the brace pattern exactly when neither fence matches. */
  function FirstMatch(s: string): (r: Option<RegexMatch>)
    ensures r.Some? ==> MatchIn(s, r.value)
    ensures FencedMatch(s, JsonFenceOpen).Some? ==> r == FencedMatch(s, JsonFenceOpen)
    ensures FencedMatch(s, JsonFenceOpen).None? && FencedMatch(s, PlainFenceOpen).Some? ==>
              r == FencedMatch(s, PlainFenceOpen)
    ensures r.Some? && r.value.group.None? ==>
              FencedMatch(s, JsonFenceOpen).None? && FencedMatch(s, PlainFenceOpen).None? && r == BraceMatch(s)
    ensures FencedMatch(s, JsonFenceOpen).None? && FencedMatch(s, PlainFenceOpen).None? ==> r == BraceMatch(s)
  {
    var json := FencedMatch(s, JsonFenceOpen);
    if json.Some? then json
    else
      var plain := FencedMatch(s, PlainFenceOpen);
      if plain.Some? then plain else BraceMatch(s)
  }

  /** None of the three patterns matches exactly when no opening marker of
      either kind is followed by a closing one and no '{' precedes a '}'. */
  lemma FirstMatchNone(s: string)
    ensures FirstMatch(s).None? <==>
              (forall i: nat, j: nat :: OccursAt(s, JsonFenceOpen, i) && i + |JsonFenceOpen| <= j ==> !OccursAt(s, FenceClose, j)) &&
              (forall i: nat, j: nat :: OccursAt(s, PlainFenceOpen, i) && i + |PlainFenceOpen| <= j ==> !OccursAt(s, FenceClose, j)) &&
              (forall i, j :: 0 <= i < j < |s| && s[i] == '{' ==> s[j] != '}')
  {
    FencedMatchExists(s, JsonFenceOpen);
    FencedMatchExists(s, PlainFenceOpen);
    BraceMatchExists(s);
  }

  /** `jsonMatch[1] || jsonMatch[0]`: group 1 unless it is absent or empty.
      The result is empty only when the whole match is. */
  function GroupOrWhole(s: string, m: RegexMatch): (r: string)
    requires MatchIn(s, m)
    ensures m.group.Some? && Slice(s, m.group.value) != "" ==> r == Slice(s, m.group.value)
    ensures r == Slice(s, m.whole) || (m.group.Some? && r == Slice(s, m.group.value))
    ensures r == "" ==> Slice(s, m.whole) == ""
  {
    if m.group.Some? && Slice(s, m.group.value) != "" then Slice(s, m.group.value) else Slice(s, m.whole)
  }

  /** The text handed to `JSON.parse` (before any fence cleanup): the whole
      reply when no pattern matches, otherwise the first match's group or
      whole match. */
  function ExtractCandidate(content: string): (r: string)
    ensures IsInfix(r, content)
    ensures FirstMatch(content).None? ==> r == content
    ensures FirstMatch(content).Some? ==> r == GroupOrWhole(content, FirstMatch(content).value)
  {
    var m := FirstMatch(content);
    if m.None? then
      assert content[0..|content|] == content;
      content
    else
      var sp := if m.value.group.Some? && Slice(content, m.value.group.value) != ""
                then m.value.group.value else m.value.whole;
      assert content[sp.start..sp.end] == GroupOrWhole(content, m.value);
      GroupOrWhole(content, m.value)
  }

  /** Each fence marker starts with ```. */
  lemma MarkerHasFence(s: string, open: string, i: nat)
    requires open == JsonFenceOpen || open == PlainFenceOpen
    requires OccursAt(s, open, i)
    ensures OccursAt(s, Fence, i)
  {
    assert s[i..i + 3] == s[i..i + |open|][..3];
  }

  /** Without ``` anywhere, neither fenced pattern matches. */
  lemma NoFencedMatch(s: string)
    requires forall k: nat :: !OccursAt(s, Fence, k)
    ensures FencedMatch(s, JsonFenceOpen).None? && FencedMatch(s, PlainFenceOpen).None?
  {
    var a := FencedMatch(s, JsonFenceOpen);
    if a.Some? {
      MarkerHasFence(s, JsonFenceOpen, a.value.whole.start);
    }
    var b := FencedMatch(s, PlainFenceOpen);
    if b.Some? {
      MarkerHasFence(s, PlainFenceOpen, b.value.whole.start);
    }
  }

  /** `FindFrom` returns an occurrence with none before it. */
  lemma FindFirst(s: string, pat: string, from: nat, i: nat)
    requires from <= i && OccursAt(s, pat, i)
    requires forall k :: from <= k < i ==> !OccursAt(s, pat, k)
    ensures FindFrom(s, pat, from) == Some(i)
  {
  }

  /** No marker starting with a backtick occurs inside a backtick-free prefix. */
  lemma NoMarkerInProse(s: string, pre: string, open: string)
    requires open != [] && open[0] == '`'
    requires pre <= s && '`' !in pre
    ensures forall k: nat :: k < |pre| ==> !OccursAt(s, open, k)
  {
    forall k: nat | k < |pre|
      ensures !OccursAt(s, open, k)
    {
      assert s[k] == pre[k];
      assert k + |open| <= |s| ==> s[k..k + |open|][0] == s[k];
    }
  }

  /** A closing marker cannot start inside a body without one when a newline
      follows the body. */
  lemma NoCloseInBody(head: string, body: string, rest: string)
    requires forall k: nat :: !OccursAt(body, FenceClose, k)
    ensures forall k: nat :: |head| <= k < |head| + |body| ==>
              !OccursAt(head + body + FenceClose + rest, FenceClose, k)
  {
    var s := head + body + FenceClose + rest;
    var n, e := |head|, |head| + |body|;
    forall k: nat | n <= k < e
      ensures !OccursAt(s, FenceClose, k)
    {
      if k + |FenceClose| <= e {
        assert s[k..k + |FenceClose|] == body[k - n..k - n + |FenceClose|];
        assert !OccursAt(body, FenceClose, k - n);
      } else {
        assert s[e] == '\n';
        assert k + |FenceClose| <= |s| ==> s[k..k + |FenceClose|][e - k] == s[e];
      }
    }
  }

  /** In `pre + open + body + "\n```" + rest`, with no backtick in `pre` and
      no closing marker inside `body`, the fenced pattern for `open` matches
      from the marker right after `pre` to the first closing marker, and its
      group is `body`. */
  lemma FencedMatchAfterProse(pre: string, open: string, body: string, rest: string)
    requires open != [] && open[0] == '`'
    requires '`' !in pre
    requires forall k: nat :: !OccursAt(body, FenceClose, k)
    ensures var n := |pre| + |open|;
            FencedMatch(pre + open + body + FenceClose + rest, open) ==
              Some(RegexMatch(Span(|pre|, n + |body| + |FenceClose|), Some(Span(n, n + |body|))))
  {
    var s := pre + open + body + FenceClose + rest;
    var n := |pre| + |open|;
    var e := n + |body|;
    assert s[|pre|..n] == open;
    assert s[e..e + |FenceClose|] == FenceClose;
    NoMarkerInProse(s, pre, open);
    NoCloseInBody(pre + open, body, rest);
    FindFirst(s, open, 0, |pre|);
    FindFirst(s, FenceClose, n, e);
  }

  /** A reply holding a ```json fence around a non-empty body, after text
      without backticks, yields the body (whatever follows the fence). */
  lemma ExtractFromJsonFence(pre: string, body: string, rest: string)
    requires '`' !in pre
    requires body != ""
    requires forall k: nat :: !OccursAt(body, FenceClose, k)
    ensures ExtractCandidate(pre + JsonFenceOpen + body + FenceClose + rest) == body
  {
    var s := pre + JsonFenceOpen + body + FenceClose + rest;
    var n := |pre| + |JsonFenceOpen|;
    FencedMatchAfterProse(pre, JsonFenceOpen, body, rest);
    assert s[n..n + |body|] == body;
  }

  /** Without any ```json opening marker, a plain ``` fence around a non-empty
      body, after text without backticks, yields the body. */
  lemma ExtractFromPlainFence(pre: string, body: string, rest: string)
    requires '`' !in pre
    requires body != ""
    requires forall k: nat :: !OccursAt(body, FenceClose, k)
    requires forall k: nat :: !OccursAt(pre + PlainFenceOpen + body + FenceClose + rest, JsonFenceOpen, k)
    ensures ExtractCandidate(pre + PlainFenceOpen + body + FenceClose + rest) == body
  {
    var s := pre + PlainFenceOpen + body + FenceClose + rest;
    var n := |pre| + |PlainFenceOpen|;
    assert FencedMatch(s, JsonFenceOpen).None?;
    FencedMatchAfterProse(pre, PlainFenceOpen, body, rest);
    var m := FencedMatch(s, PlainFenceOpen).value;
    assert FirstMatch(s) == Some(m);
    assert s[n..n + |body|] == body;
    assert GroupOrWhole(s, m) == body;
  }

  /** A ```json fence with nothing inside yields the whole match, fences included. */
  lemma ExtractFromEmptyJsonFence(rest: string)
    ensures ExtractCandidate(JsonFenceOpen + FenceClose + rest) == JsonFenceOpen + FenceClose
  {
    var s := JsonFenceOpen + FenceClose + rest;
    var n := |JsonFenceOpen|;
    assert s[..n] == JsonFenceOpen;
    assert s[n..n + |FenceClose|] == FenceClose;
    assert OccursAt(s, JsonFenceOpen, 0);
    assert OccursAt(s, FenceClose, n);
    var m := FencedMatch(s, JsonFenceOpen);
    assert m.Some? && m.value.group.value == Span(n, n);
    assert s[..n + |FenceClose|] == JsonFenceOpen + FenceClose;
  }

  /** Between text without '{' and text without '}', the brace pattern
      matches exactly the braced part. */
  lemma BraceMatchAt(pre: string, mid: string, post: string)
    requires forall k :: 0 <= k < |pre| ==> pre[k] != '{'
    requires forall k :: 0 <= k < |post| ==> post[k] != '}'
    ensures BraceMatch(pre + "{" + mid + "}" + post) ==
              Some(RegexMatch(Span(|pre|, |pre| + |mid| + 2), None))
  {
    var s := pre + "{" + mid + "}" + post;
    var i, j := |pre|, |pre| + 1 + |mid|;
    assert s[i] == '{' && s[j] == '}';
    assert forall k :: 0 <= k < i ==> s[k] == pre[k];
    assert forall k :: j < k < |s| ==> s[k] == post[k - j - 1];
  }

  /** When neither fenced pattern matches (no fence at all, or a fence that
      never closes), the candidate runs from the first '{' to the last '}'. */
  lemma ExtractFromBraces(pre: string, mid: string, post: string)
    requires forall k :: 0 <= k < |pre| ==> pre[k] != '{'
    requires forall k :: 0 <= k < |post| ==> post[k] != '}'
    requires FencedMatch(pre + "{" + mid + "}" + post, JsonFenceOpen).None?
    requires FencedMatch(pre + "{" + mid + "}" + post, PlainFenceOpen).None?
    ensures ExtractCandidate(pre + "{" + mid + "}" + post) == "{" + mid + "}"
  {
    var s := pre + "{" + mid + "}" + post;
    BraceMatchAt(pre, mid, post);
    var m := RegexMatch(Span(|pre|, |pre| + |mid| + 2), None);
    assert FirstMatch(s) == Some(m);
    assert s[|pre|..|pre| + |mid| + 2] == "{" + mid + "}";
    assert GroupOrWhole(s, m) == "{" + mid + "}";
  }

  /** With no fence and no '{', the whole reply is the candidate. */
  lemma ExtractFallsBackToContent(s: string)
    requires forall k :: 0 <= k < |s| ==> s[k] != '{'
    requires forall k: nat :: !OccursAt(s, Fence, k)
    ensures ExtractCandidate(s) == s
  {
    NoFencedMatch(s);
  }

  /** `s.replace(/```json\n|```\n|```/g, '')`: scanning left to right, each
      place where a marker starts loses the first marker that matches there
      (in that order of preference); every other character is kept. */
  function StripFenceMarkers(s: string): (r: string)
    ensures |r| <= |s|
    decreases |s|
  {
    if s == [] then []
    else if JsonFenceOpen <= s then StripFenceMarkers(s[|JsonFenceOpen|..])
    else if PlainFenceOpen <= s then StripFenceMarkers(s[|PlainFenceOpen|..])
    else if Fence <= s then StripFenceMarkers(s[|Fence|..])
    else [s[0]] + StripFenceMarkers(s[1..])
  }

  /** Where no ``` starts, the first character is kept as it is, even a
      backtick, and the scan goes on from the next one. */
  lemma StripKeepsFirst(s: string)
    requires s != [] && !(Fence <= s)
    ensures StripFenceMarkers(s) == [s[0]] + StripFenceMarkers(s[1..])
  {
    assert |s| >= |JsonFenceOpen| ==> s[..|Fence|] == s[..|JsonFenceOpen|][..|Fence|];
    assert |s| >= |PlainFenceOpen| ==> s[..|Fence|] == s[..|PlainFenceOpen|][..|Fence|];
    assert !(JsonFenceOpen <= s) && !(PlainFenceOpen <= s);
  }

  /** Text without backticks passes through the cleanup unchanged, whatever follows it. */
  lemma {:induction false} StripKeepsTicklessPrefix(a: string, b: string)
    requires '`' !in a
    ensures StripFenceMarkers(a + b) == a + StripFenceMarkers(b)
    decreases |a|
  {
    if a == [] {
      assert a + b == b;
    } else {
      var s := a + b;
      assert s[0] == a[0] && a[0] in a;
      assert |s| >= |Fence| ==> s[..|Fence|][0] == s[0];
      assert s[1..] == a[1..] + b;
      assert '`' !in a[1..];
      calc {
        StripFenceMarkers(s);
        { StripKeepsFirst(s); }
        [a[0]] + StripFenceMarkers(a[1..] + b);
        { StripKeepsTicklessPrefix(a[1..], b); }
        [a[0]] + (a[1..] + StripFenceMarkers(b));
        { assert [a[0]] + a[1..] == a; }
        a + StripFenceMarkers(b);
      }
    }
  }

  /** A leading "```json\n" is deleted as one marker. */
  lemma StripDropsJsonFenceOpen(b: string)
    ensures StripFenceMarkers(JsonFenceOpen + b) == StripFenceMarkers(b)
  {
    var s := JsonFenceOpen + b;
    assert s[..|JsonFenceOpen|] == JsonFenceOpen;
    assert s[|JsonFenceOpen|..] == b;
  }

  /** A leading "```\n" is deleted as one marker, newline included. */
  lemma StripDropsPlainFenceOpen(b: string)
    ensures StripFenceMarkers(PlainFenceOpen + b) == StripFenceMarkers(b)
  {
    var s := PlainFenceOpen + b;
    assert s[3] == '\n';
    assert |s| >= |JsonFenceOpen| ==> s[..|JsonFenceOpen|][3] == s[3];
    assert s[..|PlainFenceOpen|] == PlainFenceOpen;
    assert s[|PlainFenceOpen|..] == b;
  }

  /** A leading ``` that opens neither longer marker loses only the three backticks. */
  lemma StripDropsFence(b: string)
    requires !("json\n" <= b) && !("\n" <= b)
    ensures StripFenceMarkers(Fence + b) == StripFenceMarkers(b)
  {
    var s := Fence + b;
    assert |s| >= 8 ==> s[3..8] == b[..5];
    assert |s| >= 4 ==> s[3..4] == b[..1];
    assert s[..|Fence|] == Fence;
    assert s[|Fence|..] == b;
  }

  predicate StartsWithTwoTicks(s: string) {
    |s| >= 2 && s[0] == '`' && s[1] == '`'
  }

  /** A stripped string can only start with two backticks if the input did. */
  lemma StripHead(t: string)
    ensures StartsWithTwoTicks(StripFenceMarkers(t)) ==> StartsWithTwoTicks(t)
  {
    if t != [] && !(Fence <= t) && |t| >= 2 && t[0] == '`' && t[1] != '`' {
      var u := t[1..];
      assert !(Fence <= u);
      assert StripFenceMarkers(u) == [u[0]] + StripFenceMarkers(u[1..]);
    } else if t != [] && !(Fence <= t) && |t| == 1 {
      assert StripFenceMarkers(t[1..]) == [];
    }
  }

  /** No ``` survives the cleanup. */
  lemma {:induction false} StripRemovesEveryFence(s: string)
    ensures forall k: nat :: !OccursAt(StripFenceMarkers(s), Fence, k)
    decreases |s|
  {
    if s == [] {
    } else if JsonFenceOpen <= s {
      StripRemovesEveryFence(s[|JsonFenceOpen|..]);
    } else if PlainFenceOpen <= s {
      StripRemovesEveryFence(s[|PlainFenceOpen|..]);
    } else if Fence <= s {
      StripRemovesEveryFence(s[|Fence|..]);
    } else {
      var tail := StripFenceMarkers(s[1..]);
      var r := [s[0]] + tail;
      StripRemovesEveryFence(s[1..]);
      StripHead(s[1..]);
      forall k: nat
        ensures !OccursAt(r, Fence, k)
      {
        if k == 0 && |r| >= 3 {
          assert r[1] == tail[0] && r[2] == tail[1];
          assert |s| >= 3 ==> s[..3][0] == s[0] && s[..3][1] == s[1] && s[..3][2] == s[2];
        } else if 0 < k && k + 3 <= |r| {
          assert r[k..k + 3] == tail[k - 1..k + 2];
          assert !OccursAt(tail, Fence, k - 1);
        }
      }
    }
  }

  /** Text without ``` passes through the cleanup unchanged. */
  lemma {:induction false} StripKeepsFenceFreeText(s: string)
    requires forall k: nat :: !OccursAt(s, Fence, k)
    ensures StripFenceMarkers(s) == s
    decreases |s|
  {
    if s != [] {
      assert !OccursAt(s, Fence, 0);
      assert !(JsonFenceOpen <= s) && !(PlainFenceOpen <= s);
      forall k: nat ensures !OccursAt(s[1..], Fence, k) {
        assert !OccursAt(s, Fence, k + 1);
        if k + 3 <= |s[1..]| {
          assert s[1..][k..k + 3] == s[k + 1..k + 4];
        }
      }
      StripKeepsFenceFreeText(s[1..]);
    }
  }
}
