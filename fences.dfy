/** Markdown code-fence stripping applied to agent replies before they are
    parsed as JSON (`output.replace("```json", "").replace("```", "")` in
    mcp_client.py). */
module Fences {

  /** `s` contains `pat` somewhere. */
  predicate Contains(s: string, pat: string)
    decreases |s|
  {
    |pat| <= |s| && (s[..|pat|] == pat || Contains(s[1..], pat))
  }

  /** Python's `s.replace(pat, rep)`: scanning from the left, every occurrence
      that does not overlap an earlier replaced one is replaced. */
  function Replace(s: string, pat: string, rep: string): (r: string)
    requires |pat| > 0
    ensures !Contains(s, pat) ==> r == s
    ensures |rep| <= |pat| ==> |r| <= |s|
    decreases |s|
  {
    if |s| < |pat| then s
    else if s[..|pat|] == pat then rep + Replace(s[|pat|..], pat, rep)
    else [s[0]] + Replace(s[1..], pat, rep)
  }

  const JsonFence := "```json"
  const Fence := "```"

  /** The text handed to `json.loads`. */
  function StripFences(text: string): (r: string)
    ensures |r| <= |text|
  {
    Replace(Replace(text, JsonFence, ""), Fence, "")
  }

  /** `pat` occurs in `s` starting at index `i`. */
  predicate OccursAt(s: string, pat: string, i: int)
  {
    0 <= i <= |s| - |pat| && s[i..i + |pat|] == pat
  }

  /** `Contains` means an occurrence at some index. */
  lemma {:induction false} ContainsAt(s: string, pat: string)
    ensures Contains(s, pat) <==> exists i :: OccursAt(s, pat, i)
    decreases |s|
  {
    if |pat| <= |s| {
      if s[..|pat|] == pat {
        assert OccursAt(s, pat, 0);
      } else {
        ContainsAt(s[1..], pat);
        if Contains(s[1..], pat) {
          var j :| OccursAt(s[1..], pat, j);
          assert s[j + 1..j + 1 + |pat|] == s[1..][j..j + |pat|];
          assert OccursAt(s, pat, j + 1);
        }
        if exists i :: OccursAt(s, pat, i) {
          var i :| OccursAt(s, pat, i);
          assert i != 0;
          assert s[1..][i - 1..i - 1 + |pat|] == s[i..i + |pat|];
          assert OccursAt(s[1..], pat, i - 1);
        }
      }
    }
  }

  /** When the text left after removing fences starts with a backtick, or with
      two, so did the text it came from. */
  lemma {:induction false} StartsLikeSource(x: string, n: nat)
    requires n <= 2
    requires n <= |Replace(x, Fence, "")| && forall k :: 0 <= k < n ==> Replace(x, Fence, "")[k] == '`'
    ensures n <= |x| && forall k :: 0 <= k < n ==> x[k] == '`'
    decreases |x|
  {
    var r := Replace(x, Fence, "");
    if |x| >= 3 && x[..3] == Fence {
      assert x[0] == x[..3][0] && x[1] == x[..3][1];
    } else if |x| >= 3 && n > 0 {
      var tail := Replace(x[1..], Fence, "");
      assert r == [x[0]] + tail;
      assert x[0] == r[0];
      forall k | 0 <= k < n - 1 ensures tail[k] == '`' {
        assert tail[k] == r[k + 1];
      }
      StartsLikeSource(x[1..], n - 1);
      forall k | 1 <= k < n ensures x[k] == '`' {
        assert x[k] == x[1..][k - 1];
      }
    }
  }

  /** Removing every "```" leaves no "```" behind, even where removing one
      joins backticks on both sides of it. */
  lemma {:induction false} NoFenceAfterRemoval(x: string)
    ensures !Contains(Replace(x, Fence, ""), Fence)
    decreases |x|
  {
    var r := Replace(x, Fence, "");
    if |x| < 3 {
    } else if x[..3] == Fence {
      NoFenceAfterRemoval(x[3..]);
      assert r == Replace(x[3..], Fence, "");
    } else {
      var tail := Replace(x[1..], Fence, "");
      NoFenceAfterRemoval(x[1..]);
      assert r == [x[0]] + tail;
      assert r[1..] == tail;
      if |r| >= 3 && r[..3] == Fence {
        assert tail[0] == r[1] && tail[1] == r[2];
        StartsLikeSource(x[1..], 2);
        assert false;
      }
    }
  }

  /** The text handed to the JSON parser contains no "```". */
  lemma StrippedHasNoFence(text: string)
    ensures !Contains(StripFences(text), Fence)
  {
    NoFenceAfterRemoval(Replace(text, JsonFence, ""));
  }

  /** Text that starts with no character of the pattern passes through unchanged. */
  lemma {:induction false} ReplaceAfterPlain(w: string, x: string, pat: string, rep: string)
    requires |pat| > 0 && pat[0] !in w
    ensures Replace(w + x, pat, rep) == w + Replace(x, pat, rep)
    decreases |w|
  {
    if w != [] {
      var s := w + x;
      assert s[0] == w[0];
      if |s| < |pat| {
        assert !Contains(x, pat);
      } else {
        assert s[1..] == w[1..] + x;
        ReplaceAfterPlain(w[1..], x, pat, rep);
      }
    } else {
      assert w + x == x;
    }
  }

  lemma NoBacktickNoFence(s: string, pat: string)
    requires '`' !in s && |pat| > 0 && pat[0] == '`'
    ensures !Contains(s, pat)
    decreases |s|
  {
    if |pat| <= |s| {
      assert s[..|pat|][0] == s[0];
      NoBacktickNoFence(s[1..], pat);
    }
  }

  /** Text without backticks is handed to the parser as it is. */
  lemma StripPlain(text: string)
    requires '`' !in text
    ensures StripFences(text) == text
  {
    NoBacktickNoFence(text, JsonFence);
    NoBacktickNoFence(text, Fence);
  }

  /** A reply wrapped in a json code block loses exactly its fences. */
  lemma StripFencedBlock(body: string)
    requires '`' !in body
    ensures StripFences(JsonFence + "\n" + body + "\n" + Fence) == "\n" + body + "\n"
  {
    var inner := "\n" + body + "\n";
    var text := JsonFence + inner + Fence;
    assert JsonFence + "\n" + body + "\n" + Fence == text;
    assert text[..|JsonFence|] == JsonFence;
    assert text[|JsonFence|..] == inner + Fence;
    ReplaceAfterPlain(inner, Fence, JsonFence, "");
    assert Replace(Fence, JsonFence, "") == Fence;
    assert Replace(text, JsonFence, "") == inner + Fence;
    ReplaceAfterPlain(inner, Fence, Fence, "");
    assert Fence[..3] == Fence && Fence[3..] == "";
    assert Replace(Fence, Fence, "") == "";
    assert inner + "" == inner;
  }
}
