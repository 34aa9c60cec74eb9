/** When one text can be had from another by leaving characters out. */
module Subsequence {
  import opened Text

  ghost predicate Sub(a: string, b: string)
    decreases |b|
  {
    a == "" || (b != "" && ((a[0] == b[0] && Sub(a[1..], b[1..])) || Sub(a, b[1..])))
  }

  lemma {:induction false} SubRefl(a: string)
    ensures Sub(a, a)
  {
    if a != "" { SubRefl(a[1..]); }
  }

  lemma {:induction false} SubAfter(a: string, before: string, b: string)
    requires Sub(a, b)
    ensures Sub(a, before + b)
    decreases |before|
  {
    if before == "" {
      assert before + b == b;
    } else {
      SubAfter(a, before[1..], b);
      assert (before + b)[1..] == before[1..] + b;
    }
  }

  lemma {:induction false} SubConcat(a: string, b: string, c: string, d: string)
    requires Sub(a, b) && Sub(c, d)
    ensures Sub(a + c, b + d)
    decreases |b|
  {
    if a == "" {
      assert a + c == c;
      SubAfter(c, b, d);
    } else {
      assert (b + d)[1..] == b[1..] + d && (a + c)[1..] == a[1..] + c && (a + c)[0] == a[0] && (b + d)[0] == b[0];
      if a[0] == b[0] && Sub(a[1..], b[1..]) {
        SubConcat(a[1..], b[1..], c, d);
      } else {
        SubConcat(a, b[1..], c, d);
      }
    }
  }

  lemma {:induction false} SubTrans(a: string, b: string, c: string)
    requires Sub(a, b) && Sub(b, c)
    ensures Sub(a, c)
    decreases |b| + |c|
  {
    if a != "" {
      if b[0] == c[0] && Sub(b[1..], c[1..]) {
        if a[0] == b[0] && Sub(a[1..], b[1..]) {
          SubTrans(a[1..], b[1..], c[1..]);
        } else {
          SubTrans(a, b[1..], c[1..]);
        }
      } else {
        SubTrans(a, b, c[1..]);
      }
    }
  }

  /** A part of a text is a subsequence of it. */
  lemma SubPart(before: string, a: string, after: string)
    ensures Sub(a, before + a + after)
  {
    SubRefl(a);
    assert Sub("", after);
    SubConcat(a, a, "", after);
    assert a + "" == a;
    SubAfter(a, before, a + after);
    assert before + (a + after) == before + a + after;
  }

  /** Leaving blanks out of both keeps the relation. */
  lemma {:induction false} SubInk(a: string, b: string)
    requires Sub(a, b)
    ensures Sub(Ink(a), Ink(b))
    decreases |b|
  {
    hide IsSpace;
    if a != "" {
      if a[0] == b[0] && Sub(a[1..], b[1..]) {
        SubInk(a[1..], b[1..]);
        var x := if IsSpace(a[0]) then "" else [a[0]];
        SubRefl(x);
        SubConcat(x, x, Ink(a[1..]), Ink(b[1..]));
      } else {
        SubInk(a, b[1..]);
        SubAfter(Ink(a), if IsSpace(b[0]) then "" else [b[0]], Ink(b[1..]));
      }
    }
  }
}
