/** The scan finds exactly the printed object again, whatever surrounds it and whatever its strings hold. */
module BraceScannerUndoes {
  import opened Options
  import opened Json
  import opened JsonRoundTrip
  import opened BraceScanner

  lemma {:induction false} RunConcat(st: Scan, a: Text, b: Text)
    ensures Run(st, a + b) == Run(Run(st, a), b)
    decreases |b|
  {
    if b == [] {
      assert a + b == a;
    } else {
      RunConcat(st, a, b[..|b| - 1]);
      assert (a + b)[..|a + b| - 1] == a + b[..|b| - 1];
    }
  }

  /** Scanning the text comes back to the same state without ever completing an object. */
  ghost predicate Neutral(st: Scan, t: Text) {
    Run(st, t) == st && NeverBalanced(st, t, |t|)
  }

  lemma BalancedAfter(st: Scan, a: Text, p: Text)
    requires p != []
    ensures Balanced(st, a + p) <==> Balanced(Run(st, a), p)
  {
    assert (a + p)[..|a + p| - 1] == a + p[..|p| - 1];
    RunConcat(st, a, p);
    RunConcat(st, a, p[..|p| - 1]);
  }

  lemma NeverConcat(st: Scan, a: Text, b: Text)
    requires NeverBalanced(st, a, |a|) && NeverBalanced(Run(st, a), b, |b|)
    ensures NeverBalanced(st, a + b, |a + b|)
  {
    forall k | 0 <= k <= |a + b|
      ensures !Balanced(st, (a + b)[..k])
    {
      if k <= |a| {
        assert (a + b)[..k] == a[..k];
      } else {
        var p := b[..k - |a|];
        assert (a + b)[..k] == a + p;
        BalancedAfter(st, a, p);
      }
    }
  }

  lemma NeutralConcat(st: Scan, a: Text, b: Text)
    requires Neutral(st, a) && Neutral(st, b)
    ensures Neutral(st, a + b)
  {
    RunConcat(st, a, b);
    NeverConcat(st, a, b);
  }

  /** Text without quotes and braces does nothing outside strings. */
  lemma {:induction false} PlainIsNeutral(st: Scan, t: Text)
    requires !st.inStr && !st.esc
    requires forall i | 0 <= i < |t| :: t[i] != QUOTE && t[i] != OPEN_BRACE && t[i] != CLOSE_BRACE
    ensures Neutral(st, t)
    decreases |t|
  {
    if t != [] {
      var front := t[..|t| - 1];
      PlainIsNeutral(st, front);
      forall k | 0 <= k <= |t|
        ensures !Balanced(st, t[..k])
      {
        assert k < |t| ==> t[..k] == front[..k];
        assert t[..|t|] == t;
      }
    }
  }

  /** Inside a string nothing can complete an object. */
  lemma {:induction false} InsideNever(st: Scan, t: Text)
    requires forall k | 0 <= k < |t| :: Run(st, t[..k]).inStr
    ensures NeverBalanced(st, t, |t|)
  {
    forall k | 0 < k <= |t|
      ensures !Balanced(st, t[..k])
    {
      assert t[..k][..k - 1] == t[..k - 1];
    }
  }

  /** Units that neither end nor escape leave the scan inside the string. */
  lemma {:induction false} LettersInside(st: Scan, t: Text)
    requires st.inStr && !st.esc && forall i | 0 <= i < |t| :: t[i] != QUOTE && t[i] != BACKSLASH
    ensures Neutral(st, t)
    decreases |t|
  {
    forall k | 0 <= k <= |t|
      ensures Run(st, t[..k]) == st
    {
      LettersRun(st, t[..k]);
    }
    assert t[..|t|] == t;
    InsideNever(st, t);
  }

  lemma {:induction false} LettersRun(st: Scan, t: Text)
    requires st.inStr && !st.esc && forall i | 0 <= i < |t| :: t[i] != QUOTE && t[i] != BACKSLASH
    ensures Run(st, t) == st
    decreases |t|
  {
    if t != [] {
      LettersRun(st, t[..|t| - 1]);
    }
  }

  lemma EscapedPairInside(st: Scan, letter: Unit)
    requires st.inStr && !st.esc
    ensures Neutral(st, [BACKSLASH, letter])
  {
    var t: Text := [BACKSLASH, letter];
    assert t[..1] == [BACKSLASH] && t[..2] == t && t[..0] == [];
    assert [BACKSLASH][..0] == [];
    assert Run(st, [BACKSLASH]) == Step(Run(st, []), BACKSLASH);
    InsideNever(st, t);
  }

  lemma UnitInside(st: Scan, u: Unit)
    requires st.inStr && !st.esc
    ensures Neutral(st, EscapeUnit(u))
  {
    match ShortEscape(u)
    case Some(letter) => EscapedPairInside(st, letter);
    case None =>
      if u < 0x20 || LeadSurrogate(u) || TrailSurrogate(u) {
        EscapedPairInside(st, LOWER_U);
        LettersInside(st, Hex4(u));
        NeutralConcat(st, [BACKSLASH, LOWER_U], Hex4(u));
      } else {
        LettersInside(st, [u]);
      }
  }

  lemma {:induction false} EscapedInside(st: Scan, s: Text)
    requires st.inStr && !st.esc
    ensures Neutral(st, Escape(s))
    decreases |s|
  {
    if s == [] {
      LettersInside(st, []);
    } else if |s| > 1 && LeadSurrogate(s[0]) && TrailSurrogate(s[1]) {
      LettersInside(st, s[..2]);
      EscapedInside(st, s[2..]);
      NeutralConcat(st, s[..2], Escape(s[2..]));
    } else {
      UnitInside(st, s[0]);
      EscapedInside(st, s[1..]);
      NeutralConcat(st, EscapeUnit(s[0]), Escape(s[1..]));
    }
  }

  lemma NotABrace(st: Scan, c: Unit)
    requires c != CLOSE_BRACE
    ensures NeverBalanced(st, [c], 1) && Run(st, [c]) == Step(st, c)
  {
    var t: Text := [c];
    assert t[..0] == [] && t[..1] == t;
    assert Run(st, t) == Step(Run(st, t[..0]), c);
  }

  lemma QuoteIsNeutral(st: Scan, s: Text)
    requires !st.inStr && !st.esc
    ensures Neutral(st, Quote(s))
  {
    var inside := st.(inStr := true);
    NotABrace(st, QUOTE);
    EscapedInside(inside, s);
    NotABrace(inside, QUOTE);
    RunConcat(st, [QUOTE], Escape(s));
    NeverConcat(st, [QUOTE], Escape(s));
    RunConcat(st, [QUOTE] + Escape(s), [QUOTE]);
    NeverConcat(st, [QUOTE] + Escape(s), [QUOTE]);
  }

  /** Below the outermost braces a printed value is neutral. */
  lemma {:induction false} ValueIsNeutral(st: Scan, v: Json)
    requires Proper(v) && !st.inStr && !st.esc && st.depth >= 1
    ensures Neutral(st, Print(v))
    decreases v, 1
  {
    match v
    case Str(s) => QuoteIsNeutral(st, s);
    case Arr(items) =>
      PlainIsNeutral(st, [OPEN_BRACKET]);
      PlainIsNeutral(st, [CLOSE_BRACKET]);
      ItemsAreNeutral(st, items);
      NeutralConcat(st, [OPEN_BRACKET], PrintItems(items));
      NeutralConcat(st, [OPEN_BRACKET] + PrintItems(items), [CLOSE_BRACKET]);
    case Obj(fields) =>
      var inner := st.(depth := st.depth + 1);
      FieldsAreNeutral(inner, fields);
      OpenBody(st, PrintFields(fields));
      CloseObject(st, [OPEN_BRACE] + PrintFields(fields));
    case _ => PlainIsNeutral(st, Print(v));
  }

  lemma {:induction false} ItemsAreNeutral(st: Scan, items: seq<Json>)
    requires forall i | 0 <= i < |items| :: Proper(items[i])
    requires !st.inStr && !st.esc && st.depth >= 1
    ensures Neutral(st, PrintItems(items))
    decreases items, 0
  {
    if items == [] {
      PlainIsNeutral(st, []);
    } else {
      ValueIsNeutral(st, items[0]);
      PlainIsNeutral(st, []);
      PlainIsNeutral(st, [COMMA]);
      ItemsAreNeutral(st, items[1..]);
      NeutralConcat(st, [COMMA], PrintItems(items[1..]));
      NeutralConcat(st, Print(items[0]), if |items| == 1 then [] else [COMMA] + PrintItems(items[1..]));
    }
  }

  lemma {:induction false} FieldsAreNeutral(st: Scan, fields: seq<Field>)
    requires forall i | 0 <= i < |fields| :: Proper(fields[i].value)
    requires !st.inStr && !st.esc && st.depth >= 1
    ensures Neutral(st, PrintFields(fields))
    decreases fields, 0
  {
    PlainIsNeutral(st, []);
    if fields != [] {
      var f := fields[0];
      assert f.value < f;
      QuoteIsNeutral(st, f.key);
      PlainIsNeutral(st, [COLON]);
      ValueIsNeutral(st, f.value);
      PlainIsNeutral(st, [COMMA]);
      FieldsAreNeutral(st, fields[1..]);
      NeutralConcat(st, Quote(f.key), [COLON]);
      NeutralConcat(st, Quote(f.key) + [COLON], Print(f.value));
      NeutralConcat(st, [COMMA], PrintFields(fields[1..]));
      NeutralConcat(st, Quote(f.key) + [COLON] + Print(f.value),
                    if |fields| == 1 then [] else [COMMA] + PrintFields(fields[1..]));
    }
  }

  /** After the opening brace and a neutral body the scan is one level deeper, with nothing completed. */
  lemma OpenBody(st: Scan, body: Text)
    requires !st.inStr && !st.esc && Neutral(st.(depth := st.depth + 1), body)
    ensures Run(st, [OPEN_BRACE] + body) == st.(depth := st.depth + 1)
    ensures NeverBalanced(st, [OPEN_BRACE] + body, |[OPEN_BRACE] + body|)
  {
    NotABrace(st, OPEN_BRACE);
    RunConcat(st, [OPEN_BRACE], body);
    NeverConcat(st, [OPEN_BRACE], body);
  }

  lemma CloseObject(st: Scan, t: Text)
    requires !st.inStr && !st.esc && Run(st, t) == st.(depth := st.depth + 1) && NeverBalanced(st, t, |t|)
    ensures NeverBalanced(st, t + [CLOSE_BRACE], |t|)
    ensures Balanced(st, t + [CLOSE_BRACE]) <==> st.depth == 0
    ensures st.depth != 0 ==> Neutral(st, t + [CLOSE_BRACE])
  {
    var whole := t + [CLOSE_BRACE];
    LastStep(st, t, CLOSE_BRACE);
    forall k | 0 <= k <= |t|
      ensures !Balanced(st, whole[..k])
    {
      assert whole[..k] == t[..k];
    }
    assert whole[..|whole|] == whole;
  }

  lemma LastStep(st: Scan, t: Text, c: Unit)
    ensures (t + [c])[..|t + [c]| - 1] == t
    ensures Run(st, t + [c]) == Step(Run(st, t), c)
  {
    assert (t + [c])[..|t + [c]| - 1] == t;
  }

  /** The scan started at the opening brace of a printed object returns that object and nothing else. */
  lemma ScanUndoesPrint(v: Json, after: Text, r: Option<Text>)
    requires v.Obj? && Proper(v)
    ensures Extracted(Print(v) + after, r) <==> r == Some(Print(v))
  {
    FieldsAreNeutral(Scan(1, false, false), v.fields);
    OpenBody(OUTSIDE, PrintFields(v.fields));
    CloseObject(OUTSIDE, [OPEN_BRACE] + PrintFields(v.fields));
    var p, t := Print(v), Print(v) + after;
    assert forall k | 0 <= k <= |p| :: t[..k] == p[..k];
    assert Extracted(t, Some(p));
    if Extracted(t, r) {
      ExtractedUnique(t, r, Some(p));
    }
  }
}
