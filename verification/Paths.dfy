/** Absolute and relative paths as the sweep sees them: cleaning, and the test for "at or below". */
module Paths {
  import opened Prelude

  /** `strings.HasPrefix`. */
  predicate HasPrefix(s: string, p: string) { p <= s }

  /** The source's test for "inside or equal to the layers directory". */
  predicate Matches(target: string, prefix: string) {
    target == prefix || HasPrefix(target, prefix + "/")
  }

  /** A cleaned absolute path, by its components. */
  predicate IsPath(p: seq<string>) {
    forall c :: c in p ==> c != "" && '/' !in c
  }

  function Body(p: seq<string>): string {
    if p == [] then "" else "/" + p[0] + Body(p[1..])
  }

  function Text(p: seq<string>): string {
    if p == [] then "/" else Body(p)
  }

  lemma FirstComponent(c: string, d: string, x: string, y: string)
    requires '/' !in c && '/' !in d && x != "" && y != "" && x[0] == '/' && y[0] == '/'
    ensures c + x <= d + y <==> c == d && x <= y
  {
    if c + x <= d + y {
      assert (c + x)[|c|] == '/' && (d + y)[|d|] == '/';
      assert |c| == |d|;
      assert c == (c + x)[..|c|] == (d + y)[..|c|] == d;
      assert x == (c + x)[|c|..] && y == (d + y)[|c|..];
    }
  }

  lemma ConsPrefix(c: string, s: string, t: string)
    ensures c + s <= c + t <==> s <= t
  {
    assert (c + s)[|c|..] == s && (c + t)[|c|..] == t;
    if c + s <= c + t {
      assert s == (c + t)[|c|..|c| + |s|] == t[..|s|];
    }
  }

  lemma HeadPrefix(q: seq<string>, p: seq<string>)
    requires q != [] && p != []
    ensures q <= p <==> q[0] == p[0] && q[1..] <= p[1..]
  {
    assert q == [q[0]] + q[1..] && p == [p[0]] + p[1..];
    if q[0] == p[0] && q[1..] <= p[1..] {
      assert q == [p[0]] + p[1..][..|q| - 1] == p[..|q|];
    }
  }

  /** Texts that begin with a component each. */
  lemma ComponentPrefix(c: string, d: string, x: string, y: string)
    requires '/' !in c && '/' !in d && x != "" && y != "" && x[0] == '/' && y[0] == '/'
    ensures "/" + c + x <= "/" + d + y <==> c == d && x <= y
  {
    FirstComponent(c, d, x, y);
    ConsPrefix("/", c + x, d + y);
    ConcatAssociates("/", c, x);
    ConcatAssociates("/", d, y);
  }

  lemma BodyAndSlash(p: seq<string>)
    ensures Body(p) + "/" == if p == [] then "/" else "/" + p[0] + (Body(p[1..]) + "/")
    ensures (Body(p) + "/")[0] == '/'
  {
    if p != [] {
      ConcatAssociates("/" + p[0], Body(p[1..]), "/");
    }
  }

  lemma {:induction false} BodyPrefix(p: seq<string>, q: seq<string>)
    requires IsPath(p) && IsPath(q)
    ensures Body(q) + "/" <= Body(p) + "/" <==> q <= p
  {
    BodyAndSlash(p);
    BodyAndSlash(q);
    if q != [] && p != [] {
      assert forall c :: c in q[1..] ==> c in q;
      assert forall c :: c in p[1..] ==> c in p;
      BodyPrefix(p[1..], q[1..]);
      BodyAndSlash(p[1..]);
      BodyAndSlash(q[1..]);
      assert q[0] in q && p[0] in p;
      ComponentPrefix(q[0], p[0], Body(q[1..]) + "/", Body(p[1..]) + "/");
      HeadPrefix(q, p);
    }
  }

  /** The string test selects exactly the paths component-wise at or below the directory; for the root
      directory it selects the root alone. */
  lemma MatchesIff(target: seq<string>, prefix: seq<string>)
    requires IsPath(target) && IsPath(prefix)
    ensures Matches(Text(target), Text(prefix)) <==> if prefix == [] then target == [] else prefix <= target
  {
    var s, t := Text(target), Text(prefix);
    assert target != [] ==> target[0] in target && |s| >= 2 && s[1] == target[0][0] != '/';
    assert prefix != [] ==> prefix[0] in prefix && |t| >= 2;
    if prefix != [] && target != [] {
      BodyPrefix(target, prefix);
      SlashEnds(s, t);
    }
  }

  lemma SlashEnds(s: string, t: string)
    ensures t + "/" <= s + "/" <==> s == t || t + "/" <= s
  {
    if t + "/" <= s + "/" {
      assert t == (s + "/")[..|t|];
      if |s| > |t| {
        assert (s + "/")[..|t| + 1] == s[..|t| + 1];
      }
    }
  }

  /** `m` lies strictly beneath `t`. */
  predicate Beneath(m: string, t: string) {
    if t == "/" then m != "/" && HasPrefix(m, "/") else HasPrefix(m, t + "/")
  }

  // ---------------------------------------------------------------------------
  // Cleaning
  // ---------------------------------------------------------------------------

  predicate Rooted(s: string) { s != "" && s[0] == '/' }

  /** One more field: empty ones and "." go, ".." takes back the component before it. */
  function Push(rooted: bool, path: seq<string>, field: string): seq<string> {
    if field == "" || field == "." then path
    else if field != ".." then path + [field]
    else if path != [] && path[|path| - 1] != ".." then path[..|path| - 1]
    else if rooted then path
    else path + [".."]
  }

  function Resolve(rooted: bool, fields: seq<string>): seq<string> {
    if fields == [] then []
    else Push(rooted, Resolve(rooted, fields[..|fields| - 1]), fields[|fields| - 1])
  }

  function Components(s: string): seq<string> { Resolve(Rooted(s), Split(s, '/')) }

  /** `filepath.Clean`. */
  function Clean(s: string): string {
    var p := Components(s);
    if Rooted(s) then Text(p) else if p == [] then "." else Join(p, '/')
  }

  lemma {:induction false} ResolvedIsPath(rooted: bool, fields: seq<string>)
    requires forall f :: f in fields ==> '/' !in f
    ensures IsPath(Resolve(rooted, fields))
  {
    if fields != [] {
      var init, last := fields[..|fields| - 1], fields[|fields| - 1];
      ResolvedIsPath(rooted, init);
      var p := Resolve(rooted, init);
      assert last in fields;
      assert forall c :: c in Push(rooted, p, last) ==> c in p || c == last;
    }
  }

  lemma ComponentsArePath(s: string)
    ensures IsPath(Components(s))
  {
    FieldsHaveNoSeparator(s, '/');
    ResolvedIsPath(Rooted(s), Split(s, '/'));
  }

  /** A cleaned path never begins with two slashes. */
  lemma CleanIsSingleSlashed(s: string)
    ensures |Clean(s)| >= 2 && Clean(s)[0] == '/' ==> Clean(s)[1] != '/'
  {
    ComponentsArePath(s);
    var p := Components(s);
    if p != [] {
      assert p[0] in p;
      assert Rooted(s) ==> Clean(s)[1] == p[0][0];
      assert !Rooted(s) ==> Clean(s)[0] == p[0][0];
    }
  }

  /** Among cleaned paths the root directory's test selects the root alone. */
  lemma RootMatchesItself(s: string)
    ensures Matches(Clean(s), "/") <==> Clean(s) == "/"
  {
    CleanIsSingleSlashed(s);
    BeginsWithTwo(Clean(s));
  }

  lemma BeginsWithTwo(s: string)
    ensures HasPrefix(s, "/" + "/") ==> |s| >= 2 && s[0] == '/' && s[1] == '/'
  {
    if HasPrefix(s, "/" + "/") {
      assert s[0] == ("/" + "/")[0] && s[1] == ("/" + "/")[1];
    }
  }

  /** A kernel path: no component is "." or "..". */
  predicate IsPlain(p: seq<string>) {
    IsPath(p) && "." !in p && ".." !in p
  }

  lemma {:induction false} ResolveOfPlain(rooted: bool, p: seq<string>)
    requires IsPlain(p)
    ensures Resolve(rooted, [""] + p) == p
  {
    var fields := [""] + p;
    if p == [] {
      assert fields[..0] == [] && fields[0] == "";
    } else {
      var init, last := p[..|p| - 1], p[|p| - 1];
      assert last in p && forall c :: c in init ==> c in p;
      ResolveOfPlain(rooted, init);
      assert fields[..|fields| - 1] == [""] + init && fields[|fields| - 1] == last;
    }
  }

  lemma {:induction false} BodyIsJoin(p: seq<string>)
    requires p != []
    ensures Body(p) == "/" + Join(p, '/')
  {
    if |p| > 1 {
      BodyIsJoin(p[1..]);
      ConcatAssociates(p[0], "/", Join(p[1..], '/'));
      ConcatAssociates("/", p[0], "/" + Join(p[1..], '/'));
    } else {
      assert Body(p[1..]) == "";
    }
  }

  /** Cleaning leaves the paths of mount points alone. */
  lemma CleanOfPlain(p: seq<string>)
    requires IsPlain(p)
    ensures Components(Text(p)) == p && Clean(Text(p)) == Text(p)
  {
    if p == [] {
      assert Split("/", '/') == [""] + Split("", '/') == ["", ""];
      var two := ["", ""];
      assert two[..1] == [""] && two[..1][..0] == [];
      assert Resolve(true, two[..1]) == [];
    } else {
      BodyIsJoin(p);
      assert "/" + Join(p, '/') == "" + ['/'] + Join(p, '/');
      SplitOfField("", Join(p, '/'), '/');
      SplitOfJoin(p, '/');
      ResolveOfPlain(true, p);
    }
  }

  /** On raw absolute texts, the test on the cleaned forms selects exactly the targets whose components begin
      with the directory's; for the root directory it selects the root alone. */
  lemma CleanMatchesIff(target: string, directory: string)
    requires Rooted(target) && Rooted(directory)
    ensures Matches(Clean(target), Clean(directory)) <==>
            if Components(directory) == [] then Components(target) == []
            else Components(directory) <= Components(target)
  {
    ComponentsArePath(target);
    ComponentsArePath(directory);
    MatchesIff(Components(target), Components(directory));
  }

  lemma {:induction false} SplitAppend(s: string, f: string, sep: char)
    requires sep !in f
    ensures Split(s + [sep] + f, sep) == Split(s, sep) + [f]
  {
    if s == "" {
      SplitOfField("", f, sep);
      SplitOfField(f, "", sep);
      assert "" + [sep] + f == s + [sep] + f;
    } else {
      SplitAppend(s[1..], f, sep);
      assert (s + [sep] + f)[1..] == s[1..] + [sep] + f;
      var rest := Split(s[1..], sep);
      assert Split(s[1..] + [sep] + f, sep) == rest + [f];
      if s[0] != sep {
        assert [[s[0]] + (rest + [f])[0]] + (rest + [f])[1..] == ([[s[0]] + rest[0]] + rest[1..]) + [f];
      } else {
        assert [""] + (rest + [f]) == ([""] + rest) + [f];
      }
    }
  }

  /** What one more field does to a path: nothing for an empty one or ".", one step up for "..", one down else. */
  lemma CleanOneMore(s: string, f: string)
    requires Rooted(s) && '/' !in f && ".." !in Components(s)
    ensures Components("/") == []
    ensures Components(s + "/" + f) ==
            if f == "" || f == "." then Components(s)
            else if f == ".." then (if Components(s) == [] then [] else Components(s)[..|Components(s)| - 1])
            else Components(s) + [f]
  {
    SplitAppend(s, f, '/');
    var fields := Split(s, '/');
    assert s + "/" + f == s + ['/'] + f;
    assert (fields + [f])[..|fields|] == fields && (fields + [f])[|fields|] == f;
    CleanOfPlain([]);
  }

  /** On absolute paths no ".." is left. */
  lemma {:induction false} NoDotsLeft(fields: seq<string>)
    ensures ".." !in Resolve(true, fields)
  {
    if fields != [] {
      NoDotsLeft(fields[..|fields| - 1]);
    }
  }

  /** Lying strictly beneath is having more components behind the other's. */
  lemma BeneathIff(m: seq<string>, t: seq<string>)
    requires IsPath(m) && IsPath(t)
    ensures Beneath(Text(m), Text(t)) <==> t <= m && t != m
  {
    var x, y := Text(m), Text(t);
    assert m != [] ==> m[0] in m && |x| >= 2 && x[0] == '/' && x[1] == m[0][0] != '/';
    assert t != [] ==> t[0] in t && |y| >= 2;
    if t != [] && m != [] {
      MatchesIff(m, t);
      BodyPrefix(m, t);
      BodyPrefix(t, m);
      SlashEnds(x, y);
    }
  }
}
