/** `extractBalancedJson`: the escape-aware scan for the end of a JSON object inside a reply. */
module BraceScanner {
  import opened Options
  import opened Json

  datatype Scan = Scan(depth: int, inStr: bool, esc: bool)

  const OUTSIDE := Scan(0, false, false)

  function Step(st: Scan, c: Unit): Scan {
    if st.inStr then
      if st.esc then st.(esc := false)
      else if c == BACKSLASH then st.(esc := true)
      else st.(inStr := c != QUOTE)
    else if c == QUOTE then st.(inStr := true)
    else if c == OPEN_BRACE then st.(depth := st.depth + 1)
    else if c == CLOSE_BRACE then st.(depth := st.depth - 1)
    else st
  }

  /** The state after a whole text. */
  ghost function Run(st: Scan, t: Text): Scan {
    if t == [] then st else Step(Run(st, t[..|t| - 1]), t[|t| - 1])
  }

  /** The text ends with a closing brace outside strings that takes the depth back to zero. */
  ghost predicate Balanced(st: Scan, t: Text) {
    t != [] && t[|t| - 1] == CLOSE_BRACE && !Run(st, t[..|t| - 1]).inStr && Run(st, t).depth == 0
  }

  ghost predicate NeverBalanced(st: Scan, t: Text, n: nat)
    requires n <= |t|
  {
    forall k | 0 <= k <= n :: !Balanced(st, t[..k])
  }

  /** The shortest balanced prefix of the text, or nothing when no prefix is balanced. */
  ghost predicate Extracted(t: Text, r: Option<Text>) {
    match r
    case None => NeverBalanced(OUTSIDE, t, |t|)
    case Some(p) => p <= t && Balanced(OUTSIDE, p) && NeverBalanced(OUTSIDE, t, |p| - 1)
  }

  method ExtractBalancedJson(s: Text, start: nat) returns (r: Option<Text>)
    ensures start <= |s| ==> Extracted(s[start..], r)
    ensures start > |s| ==> r == None
  {
    if start > |s| {
      return None;
    }
    ghost var t := s[start..];
    var depth, inStr, esc := 0, false, false;
    var i := start;
    while i < |s|
      invariant start <= i <= |s|
      invariant Scan(depth, inStr, esc) == Run(OUTSIDE, t[..i - start])
      invariant NeverBalanced(OUTSIDE, t, i - start)
    {
      var c := s[i];
      ghost var before, after := t[..i - start], t[..i - start + 1];
      assert after[..|after| - 1] == before && after[|after| - 1] == c;
      i := i + 1;
      if inStr {
        if esc {
          esc := false;
        } else if c == BACKSLASH {
          esc := true;
        } else if c == QUOTE {
          inStr := false;
        }
        continue;
      }
      if c == QUOTE {
        inStr := true;
      } else if c == OPEN_BRACE {
        depth := depth + 1;
      } else if c == CLOSE_BRACE {
        depth := depth - 1;
        if depth == 0 {
          assert s[start..i] == after;
          return Some(s[start..i]);
        }
      }
    }
    assert t[..|s| - start] == t;
    return None;
  }

  lemma ExtractedUnique(t: Text, p: Option<Text>, q: Option<Text>)
    requires Extracted(t, p) && Extracted(t, q)
    ensures p == q
  {
    if p.Some? {
      assert t[..|p.value|] == p.value;
    }
    if q.Some? {
      assert t[..|q.value|] == q.value;
    }
  }
}
