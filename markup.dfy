/** Removal of inline markup with the pattern `/<\/?[^>]+(>|$)/g`, which the
    application uses for titles, descriptions and ids (lib/api.ts,
    CustomPlaceForm, the places API). */
module Markup {

  /** The index of the first '>' at or after `k`, or `|s|` when there is none. */
  function CloseAt(s: string, k: nat): (j: nat)
    requires k <= |s|
    ensures k <= j <= |s|
    ensures j < |s| ==> s[j] == '>'
    ensures forall m :: k <= m < j ==> s[m] != '>'
    decreases |s| - k
  {
    if k == |s| || s[k] == '>' then k else CloseAt(s, k + 1)
  }

  /** `s.replace(/<\/?[^>]+(>|$)/g, "")`. Scanning left to right, a '<' that is
      followed by some character other than '>' starts a match; the greedy
      `[^>]+` runs to the first '>' (which `(>|$)` consumes) or to the end of
      the text. Any other character is kept. */
  function StripTags(s: string): (r: string)
    ensures |r| <= |s|
    decreases |s|
  {
    if s == [] then []
    else if s[0] == '<' && |s| >= 2 && s[1] != '>' then
      var j := CloseAt(s, 2);
      if j < |s| then StripTags(s[j + 1..]) else []
    else [s[0]] + StripTags(s[1..])
  }

  /** Text in which the pattern matches nowhere: every '<' is the last
      character or is directly followed by '>'. */
  predicate TagFree(s: string)
  {
    forall k :: 0 <= k < |s| && s[k] == '<' ==> k == |s| - 1 || s[k + 1] == '>'
  }

  /** After stripping, the pattern matches nowhere. */
  lemma {:induction false} StripTagsIsTagFree(s: string)
    ensures TagFree(StripTags(s))
    decreases |s|
  {
    if s == [] {
    } else if s[0] == '<' && |s| >= 2 && s[1] != '>' {
      var j := CloseAt(s, 2);
      if j < |s| {
        StripTagsIsTagFree(s[j + 1..]);
      }
    } else {
      var rest := StripTags(s[1..]);
      StripTagsIsTagFree(s[1..]);
      if s[0] == '<' && |s| >= 2 {
        assert s[1..][0] == '>';
        assert rest == [s[1]] + StripTags(s[2..]) by {
          assert s[1..][1..] == s[2..];
        }
      }
      var r := [s[0]] + rest;
      forall k | 0 <= k < |r| && r[k] == '<' ensures k == |r| - 1 || r[k + 1] == '>' {
        if k > 0 {
          assert r[k] == rest[k - 1];
        }
      }
    }
  }

  /** Text the pattern does not match is left as it is. */
  lemma {:induction false} StripTagsKeepsTagFree(s: string)
    requires TagFree(s)
    ensures StripTags(s) == s
    decreases |s|
  {
    if s != [] {
      assert TagFree(s[1..]) by {
        forall k | 0 <= k < |s[1..]| && s[1..][k] == '<'
          ensures k == |s[1..]| - 1 || s[1..][k + 1] == '>'
        {
          assert s[k + 1] == '<';
        }
      }
      StripTagsKeepsTagFree(s[1..]);
    }
  }

  /** A slice of tag-free text is tag-free. */
  lemma TagFreeSlice(s: string, a: nat, b: nat)
    requires TagFree(s) && a <= b <= |s|
    ensures TagFree(s[a..b])
  {
    var t := s[a..b];
    forall k | 0 <= k < |t| && t[k] == '<' ensures k == |t| - 1 || t[k + 1] == '>' {
      assert s[a + k] == '<';
      if k < |t| - 1 {
        assert t[k + 1] == s[a + k + 1];
      }
    }
  }

  /** Stripping twice is the same as stripping once. */
  lemma StripTagsIdempotent(s: string)
    ensures StripTags(StripTags(s)) == StripTags(s)
  {
    StripTagsIsTagFree(s);
    StripTagsKeepsTagFree(StripTags(s));
  }

  /** A complete tag `<t>` disappears together with its brackets. */
  lemma StripTagsClosedTag(t: string, rest: string)
    requires t != [] && '>' !in t
    ensures StripTags("<" + t + ">" + rest) == StripTags(rest)
  {
    var s := "<" + t + ">" + rest;
    var close := |t| + 1;
    assert s[1] == t[0] && s[close] == '>';
    forall m | 2 <= m < close ensures s[m] != '>' {
      assert s[m] == t[m - 1];
    }
    var j := CloseAt(s, 2);
    assert j == close;
    assert s[j + 1..] == rest;
  }

  /** An unterminated tag at the end of the text, `<t`, is removed to the end. */
  lemma StripTagsOpenTag(t: string)
    requires t != [] && '>' !in t
    ensures StripTags("<" + t) == ""
  {
    var s := "<" + t;
    assert s[1] == t[0];
    forall m | 2 <= m < |s| ensures s[m] != '>' {
      assert s[m] == t[m - 1];
    }
  }

  /** Text without '<' before a position passes through untouched. */
  lemma {:induction false} StripTagsPlainPrefix(p: string, rest: string)
    requires '<' !in p
    ensures StripTags(p + rest) == p + StripTags(rest)
  {
    if p != [] {
      assert (p + rest)[0] == p[0] && (p + rest)[1..] == p[1..] + rest;
      StripTagsPlainPrefix(p[1..], rest);
    } else {
      assert p + rest == rest;
    }
  }
}
