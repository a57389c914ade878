/** What several components share. */
module Prelude {

  datatype Option<T> = None | Some(value: T)

  /** Go's `byte` and `uint8`. */
  newtype uint8 = x: int | 0 <= x < 0x100

  lemma ConcatAssociates<T>(a: seq<T>, b: seq<T>, c: seq<T>)
    ensures (a + b) + c == a + (b + c)
  {
  }

  /** What `f` gives for each element, joined in order. */
  function Gather<A, B>(f: A -> seq<B>, s: seq<A>): seq<B> {
    if s == [] then [] else Gather(f, s[..|s| - 1]) + f(s[|s| - 1])
  }

  lemma GatherTwo<A, B>(f: A -> seq<B>, a: A, b: A)
    ensures Gather(f, [a, b]) == f(a) + f(b)
  {
    assert [a, b][..1] == [a] && [a][..0] == [];
    assert Gather(f, [a]) == [] + f(a) == f(a);
  }

  lemma {:induction false} GatherIff<A, B>(f: A -> seq<B>, s: seq<A>, b: B)
    ensures b in Gather(f, s) <==> exists a :: a in s && b in f(a)
  {
    if s != [] {
      var init, last := s[..|s| - 1], s[|s| - 1];
      GatherIff(f, init, b);
      assert s == init + [last];
    }
  }

  lemma {:induction false} GatherLength<A, B>(f: A -> seq<B>, s: seq<A>)
    requires forall a :: |f(a)| <= 1
    ensures |Gather(f, s)| <= |s|
    ensures |Gather(f, s)| == |s| <==> forall a :: a in s ==> |f(a)| == 1
  {
    if s != [] {
      var init, last := s[..|s| - 1], s[|s| - 1];
      GatherLength(f, init);
      assert s == init + [last];
    }
  }

  // ---------------------------------------------------------------------------
  // Text with separators
  // ---------------------------------------------------------------------------

  function Split(s: string, sep: char): (fields: seq<string>)
    ensures |fields| >= 1
  {
    if s == "" then [""]
    else if s[0] == sep then [""] + Split(s[1..], sep)
    else var rest := Split(s[1..], sep); [[s[0]] + rest[0]] + rest[1..]
  }

  function Join(f: seq<string>, sep: char): string
    requires |f| >= 1
  {
    if |f| == 1 then f[0] else f[0] + [sep] + Join(f[1..], sep)
  }

  lemma {:induction false} FieldsHaveNoSeparator(s: string, sep: char)
    ensures forall w :: w in Split(s, sep) ==> sep !in w
  {
    if s != "" {
      FieldsHaveNoSeparator(s[1..], sep);
      var rest := Split(s[1..], sep);
      assert rest[0] in rest && forall w :: w in rest[1..] ==> w in rest;
    }
  }

  lemma {:induction false} SplitOfField(w: string, rest: string, sep: char)
    requires sep !in w
    ensures Split(w, sep) == [w]
    ensures Split(w + [sep] + rest, sep) == [w] + Split(rest, sep)
  {
    if w == "" {
      assert w + [sep] + rest == [sep] + rest;
    } else {
      SplitOfField(w[1..], rest, sep);
      assert (w + [sep] + rest)[1..] == w[1..] + [sep] + rest;
      assert w == [w[0]] + w[1..];
    }
  }

  lemma {:induction false} JoinOfSplit(s: string, sep: char)
    ensures Join(Split(s, sep), sep) == s
  {
    if s != "" {
      JoinOfSplit(s[1..], sep);
      var rest := Split(s[1..], sep);
      if s[0] == sep {
        assert ([""] + rest)[1..] == rest;
        assert "" + [sep] + s[1..] == s;
      } else {
        var f := [[s[0]] + rest[0]] + rest[1..];
        assert |rest| > 1 ==> f[1..] == rest[1..];
      }
    }
  }

  lemma {:induction false} SplitOfJoin(f: seq<string>, sep: char)
    requires |f| >= 1 && forall w :: w in f ==> sep !in w
    ensures Split(Join(f, sep), sep) == f
  {
    if |f| == 1 {
      SplitOfField(f[0], "", sep);
    } else {
      SplitOfJoin(f[1..], sep);
      SplitOfField(f[0], Join(f[1..], sep), sep);
    }
  }
}
