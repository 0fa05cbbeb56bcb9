/**
 * The text handling both deployments apply to the model's response: the
 * widest delimited span (the regular expressions `/\[.*\]/s` and
 * `/\{[\s\S]*\}/`), the removal of Markdown code fences, and the stamping
 * of a parsed recipe with its creation time and original ingredients.
 */
module ResponseText {
  import opened Wrappers
  import opened Text
  import opened Values

  /** Where the widest span lies: from the first `open` to the last `close`,
      provided that some `close` follows the first `open`. A greedy match that
      may run across lines has exactly these bounds. */
  function SpanBounds(text: string, open: char, close: char): (r: Option<(nat, nat)>)
    ensures r.None? <==> forall i, j :: 0 <= i < j < |text| && text[i] == open ==> text[j] != close
    ensures r.Some? ==>
      && r.value.0 < r.value.1 < |text|
      && text[r.value.0] == open && text[r.value.1] == close
      && open !in text[..r.value.0] && close !in text[r.value.1 + 1..]
  {
    match FirstIndex(text, open)
    case None => None
    case Some(i) =>
      match LastIndex(text, close)
      case None => None
      case Some(j) =>
        if i < j then Some((i, j))
        else
          assert forall a :: 0 <= a < i ==> text[a] == text[..i][a];
          assert forall b :: j < b < |text| ==> text[b] == text[j + 1..][b - j - 1];
          None
  }

  /** The text the widest-span match selects, if any. */
  function WidestSpan(text: string, open: char, close: char): (r: Option<string>)
    ensures r.Some? ==> |r.value| >= 2 && r.value[0] == open && r.value[|r.value| - 1] == close
    ensures r.None? <==> SpanBounds(text, open, close).None?
  {
    match SpanBounds(text, open, close)
    case None => None
    case Some((i, j)) => Some(text[i..j + 1])
  }

  /** Prose around a single delimited block does not disturb the match: the
      span is the block itself when no opening delimiter precedes it and no
      closing delimiter follows it. */
  lemma WidestSpanOfEnclosed(before: string, block: string, after: string, open: char, close: char)
    requires |block| >= 2 && block[0] == open && block[|block| - 1] == close
    requires open !in before && close !in after
    ensures WidestSpan(before + block + after, open, close) == Some(block)
  {
    var text := before + block + after;
    var i, j := |before|, |before| + |block| - 1;
    assert text[i] == open && text[j] == close;
    var b := SpanBounds(text, open, close);
    assert b.Some?;
    assert b.value.0 == i;
    assert b.value.1 == j;
    assert text[i..j + 1] == block;
  }

  /** A text that is a delimited block from end to end is its own span: the
      serialised form of an array is handed to the parser unchanged. */
  lemma WholeTextIsSpan(text: string, open: char, close: char)
    requires |text| >= 2 && text[0] == open && text[|text| - 1] == close
    ensures WidestSpan(text, open, close) == Some(text)
  {
    WidestSpanOfEnclosed("", text, "", open, close);
    assert "" + text + "" == text;
  }

  /** A global replacement of `marker` followed by an optional newline with
      nothing, scanning left to right as `replace(/marker\n?/g, '')` does. */
  function StripMarker(s: string, marker: string): (r: string)
    requires marker != []
    ensures |r| <= |s|
    decreases |s|
  {
    if s == [] then s
    else if marker <= s then
      var rest := s[|marker|..];
      if rest != [] && rest[0] == '\n' then StripMarker(rest[1..], marker)
      else StripMarker(rest, marker)
    else [s[0]] + StripMarker(s[1..], marker)
  }

  /** Removing markers cannot introduce a character. */
  lemma {:induction false} StripMarkerKeepsOut(s: string, marker: string, c: char)
    requires marker != [] && c !in s
    ensures c !in StripMarker(s, marker)
    decreases |s|
  {
    if s != [] {
      if marker <= s {
        var rest := s[|marker|..];
        assert forall i :: 0 <= i < |rest| ==> rest[i] == s[|marker| + i];
        if rest != [] && rest[0] == '\n' {
          assert forall i :: 0 <= i < |rest| - 1 ==> rest[1..][i] == rest[i + 1];
          StripMarkerKeepsOut(rest[1..], marker, c);
        } else {
          StripMarkerKeepsOut(rest, marker, c);
        }
      } else {
        assert forall i :: 0 <= i < |s| - 1 ==> s[1..][i] == s[i + 1];
        StripMarkerKeepsOut(s[1..], marker, c);
      }
    }
  }

  /** Text shorter than the marker passes through unchanged. */
  lemma {:induction false} StripMarkerShort(s: string, marker: string)
    requires marker != [] && |s| < |marker|
    ensures StripMarker(s, marker) == s
  {
    if s != [] {
      assert !(marker <= s);
      StripMarkerShort(s[1..], marker);
    }
  }

  /** A prefix free of the marker's first character passes through unchanged. */
  lemma {:induction false} StripMarkerPassThrough(a: string, b: string, marker: string)
    requires marker != [] && marker[0] !in a
    ensures StripMarker(a + b, marker) == a + StripMarker(b, marker)
  {
    if a == [] {
      assert a + b == b;
    } else {
      var s := a + b;
      assert s[0] == a[0] && !(marker <= s);
      assert s[1..] == a[1..] + b;
      StripMarkerPassThrough(a[1..], b, marker);
    }
  }

  /** Removes one marker and the newline after it at the start of the text. */
  lemma StripMarkerAtStart(marker: string, rest: string)
    requires marker != []
    ensures StripMarker(marker + "\n" + rest, marker) == StripMarker(rest, marker)
  {
    var s := marker + "\n" + rest;
    assert marker <= s;
    assert s[|marker|..] == "\n" + rest;
    assert ("\n" + rest)[1..] == rest;
  }

  const JsonFence := "```json"
  const Fence := "```"

  /** Code-fence cleanup: every "```json" and then every "```", each with one
      optional following newline, removed; the rest trimmed. */
  function CleanFences(text: string): string {
    Trim(StripMarker(StripMarker(text, JsonFence), Fence))
  }

  /** Cleaning fences cannot introduce a character. */
  lemma CleanFencesKeepsOut(text: string, c: char)
    requires c !in text
    ensures c !in CleanFences(text)
  {
    StripMarkerKeepsOut(text, JsonFence, c);
    StripMarkerKeepsOut(StripMarker(text, JsonFence), Fence, c);
    TrimKeepsOut(StripMarker(StripMarker(text, JsonFence), Fence), c);
  }

  /** Text with no backtick needs no cleanup beyond trimming. */
  lemma CleanFencesOfPlain(body: string)
    requires '`' !in body
    ensures CleanFences(body) == Trim(body)
  {
    StripMarkerPassThrough(body, "", JsonFence);
    StripMarkerPassThrough(body, "", Fence);
    assert body + "" == body;
  }

  /** The closing fence alone is removed entirely. */
  lemma StripFenceAlone()
    ensures StripMarker(Fence, Fence) == ""
  {
    assert Fence <= Fence;
    assert Fence[|Fence|..] == "";
  }

  /** A fenced body with no backtick loses both fences in the two passes. */
  lemma StripClosingFence(body: string)
    requires '`' !in body
    ensures StripMarker(body + "\n" + Fence, JsonFence) == body + "\n" + Fence
    ensures StripMarker(body + "\n" + Fence, Fence) == body + "\n"
  {
    var tail := "\n" + Fence;
    StripMarkerShort(tail, JsonFence);
    StripMarkerPassThrough(body, tail, JsonFence);
    assert body + tail == body + "\n" + Fence;
    StripMarkerPassThrough(body + "\n", Fence, Fence);
    StripFenceAlone();
    assert body + "\n" + "" == body + "\n";
  }

  /** An object wrapped in a "```json" fence is cleaned to exactly what the
      bare object is cleaned to. */
  lemma JsonFencedLikeBare(body: string)
    requires '`' !in body
    ensures CleanFences(JsonFence + "\n" + body + "\n" + Fence) == CleanFences(body)
  {
    CleanFencesOfPlain(body);
    StripClosingFence(body);
    var inner := body + "\n" + Fence;
    assert JsonFence + "\n" + body + "\n" + Fence == JsonFence + "\n" + inner;
    StripMarkerAtStart(JsonFence, inner);
    TrimEndSpace(body, '\n');
  }

  /** A prefix at none of whose positions the marker starts passes through
      unchanged. */
  lemma {:induction false} StripMarkerNoMatchIn(a: string, b: string, marker: string)
    requires marker != []
    requires forall i :: 0 <= i < |a| ==> !(marker <= a[i..] + b)
    ensures StripMarker(a + b, marker) == a + StripMarker(b, marker)
  {
    if a == [] {
      assert a + b == b;
    } else {
      assert a[0..] == a;
      assert (a + b)[1..] == a[1..] + b;
      forall i | 0 <= i < |a[1..]|
        ensures !(marker <= a[1..][i..] + b)
      {
        assert a[1..][i..] == a[i + 1..];
      }
      StripMarkerNoMatchIn(a[1..], b, marker);
    }
  }

  /** The first pass leaves a plain opening fence in place. */
  lemma PlainFenceSurvivesFirstPass(rest: string)
    ensures StripMarker(Fence + "\n" + rest, JsonFence) == Fence + StripMarker("\n" + rest, JsonFence)
  {
    var u := "\n" + rest;
    assert Fence + "\n" + rest == Fence + u;
    forall i | 0 <= i < |Fence|
      ensures !(JsonFence <= Fence[i..] + u)
    {
      assert (Fence[i..] + u)[3 - i] == '\n';
    }
    StripMarkerNoMatchIn(Fence, u, JsonFence);
  }

  /** The first pass leaves a plainly fenced body untouched. */
  lemma PlainFencedFirstPass(body: string)
    requires '`' !in body
    ensures StripMarker(Fence + "\n" + (body + "\n" + Fence), JsonFence) == Fence + "\n" + (body + "\n" + Fence)
  {
    var inner := body + "\n" + Fence;
    assert Fence + ("\n" + inner) == Fence + "\n" + inner;
    assert StripMarker(Fence + "\n" + inner, JsonFence) == Fence + StripMarker("\n" + inner, JsonFence) by {
      PlainFenceSurvivesFirstPass(inner);
    }
    assert StripMarker("\n" + inner, JsonFence) == "\n" + StripMarker(inner, JsonFence) by {
      StripMarkerPassThrough("\n", inner, JsonFence);
    }
    assert StripMarker(inner, JsonFence) == inner by {
      StripClosingFence(body);
    }
  }

  /** An object wrapped in a plain "```" fence is cleaned to exactly what the
      bare object is cleaned to. */
  lemma PlainFencedLikeBare(body: string)
    requires '`' !in body
    ensures CleanFences(Fence + "\n" + body + "\n" + Fence) == CleanFences(body)
  {
    var inner := body + "\n" + Fence;
    var s := Fence + "\n" + inner;
    assert Fence + "\n" + body + "\n" + Fence == s;
    PlainFencedFirstPass(body);
    StripMarkerAtStart(Fence, inner);
    StripClosingFence(body);
    TrimEndSpace(body, '\n');
    CleanFencesOfPlain(body);
  }

  /** The recipe the extractor returns: the parsed object's fields, then
      `createdAt` and `originalIngredients`, which always win. */
  function StampRecipe(parsed: Value, createdAt: string, original: Value): (r: Record)
    ensures r.Keys == SpreadFields(parsed).Keys + {"createdAt", "originalIngredients"}
    ensures r["createdAt"] == Str(createdAt) && r["originalIngredients"] == original
    ensures forall k :: k in SpreadFields(parsed) && k != "createdAt" && k != "originalIngredients" ==>
      r[k] == SpreadFields(parsed)[k]
  {
    SpreadFields(parsed)["createdAt" := Str(createdAt)]["originalIngredients" := original]
  }
}
