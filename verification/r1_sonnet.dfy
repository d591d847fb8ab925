/** The external reasoning strategy's text handling: the model's reply loses
    every `<answer>…</answer>` span and its surrounding whitespace, and what
    remains becomes the thought of the response, scored by its length. The
    HTTP call itself is not modelled: the reply is a parameter. */
module R1Sonnet {
  import opened Common
  import opened Nodes

  const OpenTag: string := "<answer>"
  const CloseTag: string := "</answer>"

  /** `w` occurs in `s` starting at index `i`. */
  predicate OccursAt(s: string, i: int, w: string)
  {
    0 <= i && i + |w| <= |s| && s[i..i + |w|] == w
  }

  /** The first index at or after `from` where `w` occurs. */
  function FindFrom(s: string, w: string, from: nat): (r: Option<nat>)
    ensures r.Some? ==> from <= r.value && OccursAt(s, r.value, w)
    ensures r.Some? ==> forall j :: from <= j < r.value ==> !OccursAt(s, j, w)
    ensures r.None? ==> forall j :: from <= j ==> !OccursAt(s, j, w)
    decreases |s| - from
  {
    if from + |w| > |s| then None
    else if OccursAt(s, from, w) then Some(from)
    else FindFrom(s, w, from + 1)
  }

  /** Where the span starting at the front of `s` ends: `s` opens with the
      opening tag and the nearest closing tag after it ends the span. */
  function SpanEnd(s: string): (r: Option<nat>)
    ensures r.Some? ==> |OpenTag| + |CloseTag| <= r.value <= |s|
  {
    if !OccursAt(s, 0, OpenTag) then None
    else match FindFrom(s, CloseTag, |OpenTag|)
      case None => None
      case Some(j) => Some(j + |CloseTag|)
  }

  /** `replace(/<answer>.*?<\/answer>/gs, '')`: the text is scanned from left to
      right; where an opening tag has a closing tag somewhere after it, the
      tag, everything up to the nearest such closing tag (newlines included)
      and that closing tag are removed, and the scan resumes after them. */
  function StripAnswers(s: string): (r: string)
    ensures |r| <= |s|
    decreases |s|
  {
    if |s| == 0 then ""
    else match SpanEnd(s)
      case Some(end) => StripAnswers(s[end..])
      case None => [s[0]] + StripAnswers(s[1..])
  }

  /** `s` holds an opening tag followed, later, by a closing tag. */
  ghost predicate HasSpan(s: string)
  {
    exists i, j :: 0 <= i && i + |OpenTag| <= j && OccursAt(s, i, OpenTag) && OccursAt(s, j, CloseTag)
  }

  lemma OccursShift(s: string, i: int, w: string)
    requires |s| > 0 && i >= 1
    ensures OccursAt(s, i, w) <==> OccursAt(s[1..], i - 1, w)
  {
    if 1 <= i && i + |w| <= |s| {
      assert s[1..][i - 1..i - 1 + |w|] == s[i..i + |w|];
    }
  }

  /** Text without a span comes back unchanged. */
  lemma {:induction false} NoSpanUnchanged(s: string)
    requires !HasSpan(s)
    ensures StripAnswers(s) == s
    decreases |s|
  {
    if |s| > 0 {
      assert SpanEnd(s).None?;
      assert !HasSpan(s[1..]) by {
        if HasSpan(s[1..]) {
          var i, j :| 0 <= i && i + |OpenTag| <= j && OccursAt(s[1..], i, OpenTag) && OccursAt(s[1..], j, CloseTag);
          OccursShift(s, i + 1, OpenTag);
          OccursShift(s, j + 1, CloseTag);
        }
      }
      NoSpanUnchanged(s[1..]);
      assert s == [s[0]] + s[1..];
    }
  }

  /** Text with a span comes back strictly shorter. */
  lemma {:induction false} SpanShortens(s: string)
    requires HasSpan(s)
    ensures |StripAnswers(s)| < |s|
    decreases |s|
  {
    var i, j :| 0 <= i && i + |OpenTag| <= j && OccursAt(s, i, OpenTag) && OccursAt(s, j, CloseTag);
    match SpanEnd(s)
    case Some(end) =>
    case None =>
      assert i != 0;
      OccursShift(s, i, OpenTag);
      OccursShift(s, j, CloseTag);
      assert OccursAt(s[1..], i - 1, OpenTag) && OccursAt(s[1..], j - 1, CloseTag);
      SpanShortens(s[1..]);
  }

  /** Stripping leaves the text as it is exactly when it holds no span. */
  lemma StripUnchangedIff(s: string)
    ensures StripAnswers(s) == s <==> !HasSpan(s)
  {
    if HasSpan(s) {
      SpanShortens(s);
    } else {
      NoSpanUnchanged(s);
    }
  }

  /** No span starts at any index of `a` in `a + t`. */
  predicate NoSpanStartsIn(a: string, t: string)
    decreases |a|
  {
    |a| == 0 || (SpanEnd(a + t).None? && NoSpanStartsIn(a[1..], t))
  }

  /** The same condition, index by index. */
  lemma {:induction false} NoSpanStartsInIff(a: string, t: string)
    ensures NoSpanStartsIn(a, t) <==> forall i :: 0 <= i < |a| ==> SpanEnd((a + t)[i..]).None?
    decreases |a|
  {
    if |a| > 0 {
      NoSpanStartsInIff(a[1..], t);
      assert (a + t)[0..] == a + t;
      forall i | 0 <= i < |a| - 1
        ensures (a[1..] + t)[i..] == (a + t)[i + 1..]
      {
      }
      if forall i :: 0 <= i < |a| ==> SpanEnd((a + t)[i..]).None? {
        forall i | 0 <= i < |a| - 1
          ensures SpanEnd((a[1..] + t)[i..]).None?
        {
          assert SpanEnd((a + t)[i + 1..]).None?;
        }
      }
      if NoSpanStartsIn(a, t) {
        forall i | 0 <= i < |a|
          ensures SpanEnd((a + t)[i..]).None?
        {
          if i > 0 {
            assert SpanEnd((a[1..] + t)[i - 1..]).None?;
          }
        }
      }
    }
  }

  /** Text in which no span starts is kept as it is, whatever follows it. */
  lemma {:induction false} KeepPlain(a: string, t: string)
    requires NoSpanStartsIn(a, t)
    ensures StripAnswers(a + t) == a + StripAnswers(t)
    decreases |a|
  {
    if |a| > 0 {
      KeepPlain(a[1..], t);
      KeepFirst(a, t);
      ConsTail(a, StripAnswers(t));
    } else {
      assert a + t == t;
    }
  }

  /** Where no span starts at the front, the first character is kept and the
      scan moves on to the next one. */
  lemma KeepFirst(a: string, t: string)
    requires |a| > 0 && SpanEnd(a + t).None?
    ensures StripAnswers(a + t) == [a[0]] + StripAnswers(a[1..] + t)
  {
    var s := a + t;
    assert s[0] == a[0];
    assert s[1..] == a[1..] + t;
  }

  /** Putting the first character of `a` back in front of the rest. */
  lemma ConsTail(a: string, b: string)
    requires |a| > 0
    ensures [a[0]] + (a[1..] + b) == a + b
  {
    assert a == [a[0]] + a[1..];
  }

  /** No span starts before the first `<`. */
  lemma {:induction false} PlainPrefix(a: string, t: string)
    requires forall k :: 0 <= k < |a| ==> a[k] != '<'
    ensures NoSpanStartsIn(a, t)
    decreases |a|
  {
    if |a| > 0 {
      assert (a + t)[0] == a[0];
      PlainPrefix(a[1..], t);
    }
  }

  /** No closing tag straddles the end of `b` and a closing tag after it:
      a closing tag contains `<` only at its first character. */
  lemma NoStraddle(s: string, j: int, e: int)
    requires OccursAt(s, e, CloseTag) && e - |CloseTag| < j < e
    ensures !OccursAt(s, j, CloseTag)
  {
    assert s[e] == s[e..e + |CloseTag|][0];
    CloseTagLetters(s, j);
  }

  /** Inside an occurrence of the closing tag, `<` appears only first. */
  lemma CloseTagLetters(s: string, j: int)
    ensures OccursAt(s, j, CloseTag) ==> forall k :: j < k < j + |CloseTag| ==> s[k] != '<'
  {
    if OccursAt(s, j, CloseTag) {
      forall k | j < k < j + |CloseTag|
        ensures s[k] != '<'
      {
        assert s[k] == s[j..j + |CloseTag|][k - j] == CloseTag[k - j];
      }
    }
  }

  /** The search for `w` from `from` stops at the first occurrence. */
  lemma {:induction false} FindFromFirst(s: string, w: string, from: nat, e: nat)
    requires from <= e && OccursAt(s, e, w)
    requires forall j :: from <= j < e ==> !OccursAt(s, j, w)
    ensures FindFrom(s, w, from) == Some(e)
    decreases e - from
  {
    if from < e {
      FindFromFirst(s, w, from + 1, e);
    }
  }

  /** A span at the front of the text is removed up to the first closing
      tag, whatever lies between (newlines included). */
  lemma LeadingSpan(b: string, c: string)
    requires forall j :: !OccursAt(b, j, CloseTag)
    ensures StripAnswers(OpenTag + b + CloseTag + c) == StripAnswers(c)
  {
    var s := OpenTag + b + CloseTag + c;
    var e := |OpenTag| + |b|;
    assert s[0..|OpenTag|] == OpenTag;
    assert s[e..e + |CloseTag|] == CloseTag;
    forall j | |OpenTag| <= j < e
      ensures !OccursAt(s, j, CloseTag)
    {
      if j + |CloseTag| <= e {
        if OccursAt(s, j, CloseTag) {
          assert b[j - |OpenTag|..j - |OpenTag| + |CloseTag|] == s[j..j + |CloseTag|];
          assert OccursAt(b, j - |OpenTag|, CloseTag);
        }
      } else {
        NoStraddle(s, j, e);
      }
    }
    FindFromFirst(s, CloseTag, |OpenTag|, e);
    assert s[e + |CloseTag|..] == c;
  }

  /** One span after plain text: the text before it is kept, the span is
      dropped, and the scan goes on after the closing tag. */
  lemma SingleSpan(a: string, b: string, c: string)
    requires NoSpanStartsIn(a, OpenTag + b + CloseTag + c)
    requires forall j :: !OccursAt(b, j, CloseTag)
    ensures StripAnswers(a + OpenTag + b + CloseTag + c) == a + StripAnswers(c)
  {
    assert a + OpenTag + b + CloseTag + c == a + (OpenTag + b + CloseTag + c);
    KeepPlain(a, OpenTag + b + CloseTag + c);
    LeadingSpan(b, c);
  }

  /** The WhiteSpace and LineTerminator code points of ECMAScript, which
      `String.prototype.trim` removes from both ends. */
  predicate IsWhitespace(c: char)
  {
    || c == '\t' || c == '\n' || c == '\U{0B}' || c == '\U{0C}' || c == '\r' || c == ' '
    || c == '\U{A0}' || c == '\U{1680}' || ('\U{2000}' <= c <= '\U{200A}')
    || c == '\U{2028}' || c == '\U{2029}' || c == '\U{202F}' || c == '\U{205F}'
    || c == '\U{3000}' || c == '\U{FEFF}'
  }

  /** How many whitespace characters open `s`. */
  function LeadingWhitespace(s: string): (n: nat)
    ensures n <= |s|
    ensures forall k :: 0 <= k < n ==> IsWhitespace(s[k])
    ensures n < |s| ==> !IsWhitespace(s[n])
  {
    if |s| == 0 || !IsWhitespace(s[0]) then 0 else 1 + LeadingWhitespace(s[1..])
  }

  /** How many whitespace characters close `s`. */
  function TrailingWhitespace(s: string): (n: nat)
    ensures n <= |s|
    ensures forall k :: |s| - n <= k < |s| ==> IsWhitespace(s[k])
    ensures n < |s| ==> !IsWhitespace(s[|s| - n - 1])
  {
    if |s| == 0 || !IsWhitespace(s[|s| - 1]) then 0 else 1 + TrailingWhitespace(s[..|s| - 1])
  }

  /** `r` is the piece of `s` starting at `i` that is left once the whitespace
      on both sides is cut away. */
  predicate TrimmedAt(r: string, s: string, i: int)
  {
    && 0 <= i && i + |r| <= |s| && r == s[i..i + |r|]
    && (forall k :: 0 <= k < i ==> IsWhitespace(s[k]))
    && (forall k :: i + |r| <= k < |s| ==> IsWhitespace(s[k]))
    && (|r| > 0 ==> !IsWhitespace(r[0]) && !IsWhitespace(r[|r| - 1]))
  }

  /** `s.trim()`. */
  function Trim(s: string): (r: string)
    ensures TrimmedAt(r, s, LeadingWhitespace(s))
  {
    var lead := LeadingWhitespace(s);
    if lead == |s| then ""
    else
      var trail := TrailingWhitespace(s);
      assert lead < |s| - trail;
      s[lead..|s| - trail]
  }

  /** A text has only one trimmed form. */
  lemma TrimmedUnique(r1: string, r2: string, s: string, i1: int, i2: int)
    requires TrimmedAt(r1, s, i1) && TrimmedAt(r2, s, i2)
    ensures r1 == r2
  {
    if |r1| > 0 && |r2| > 0 {
      assert s[i1] == r1[0] && s[i2] == r2[0];
      assert i1 == i2;
      var e1, e2 := i1 + |r1| - 1, i2 + |r2| - 1;
      assert s[e1] == r1[|r1| - 1] && s[e2] == r2[|r2| - 1];
      assert e1 == e2;
    }
  }

  /** Trim gives exactly the trimmed form. */
  lemma TrimCharacterised(s: string, r: string, i: int)
    ensures TrimmedAt(r, s, i) ==> r == Trim(s)
    ensures |Trim(s)| <= |s|
  {
    if TrimmedAt(r, s, i) {
      TrimmedUnique(r, Trim(s), s, i, LeadingWhitespace(s));
    }
  }

  /** Trimming twice changes nothing more. */
  lemma TrimIdempotent(s: string)
    ensures Trim(Trim(s)) == Trim(s)
  {
    var r := Trim(s);
    assert TrimmedAt(r, r, 0);
    TrimCharacterised(r, r, 0);
  }

  /** extractThinking: the reply without its answer spans, trimmed. */
  function ExtractThinking(reply: string): (r: string)
    ensures |r| <= |reply|
    ensures |r| > 0 ==> !IsWhitespace(r[0]) && !IsWhitespace(r[|r| - 1])
  {
    var stripped := StripAnswers(reply);
    TrimCharacterised(stripped, "", 0);
    Trim(stripped)
  }

  /** A reply without any span is only trimmed. */
  lemma ExtractWithoutSpan(reply: string)
    requires !HasSpan(reply)
    ensures ExtractThinking(reply) == Trim(reply)
  {
    NoSpanUnchanged(reply);
  }

  /** The strategy name the response reports. */
  const StrategyName: string := "r1_sonnet"

  /** The response processThought returns for the model's reply. The node id
      is built from the clock and a random number, so it is a parameter. */
  function R1Response(request: Request, reply: string, nodeId: Id): (r: Response)
    ensures r.thought == ExtractThinking(reply)
    ensures 0.0 <= r.score <= (|reply| as real) / 100.0
    ensures r.score * 100.0 == |r.thought| as real
    ensures r.depth == request.thoughtNumber
    ensures r.isComplete == !request.nextThoughtNeeded && r.nextThoughtNeeded == request.nextThoughtNeeded
    ensures r.strategyUsed == Some(StrategyName)
    ensures r.possiblePaths.None? && r.bestScore.None? && r.currentPrompt.None?
    ensures r.reasoningContext.None? && r.metrics.None?
  {
    var thinking := ExtractThinking(reply);
    Response(nodeId, thinking, (|thinking| as real) / 100.0, request.thoughtNumber,
             !request.nextThoughtNeeded, request.nextThoughtNeeded, None, None, Some(StrategyName), None, None, None)
  }
}
