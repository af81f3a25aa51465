/** The keys under which scoped subscriptions and publications meet in the trie (src/lib/broker.c):
tenant, topic and scope strung together.  A subscription is a prefix of a publication exactly when
they should meet. */
module ScopeKey {
  import B = Broker
  import T = Tokens

  predicate Free(s: string, sep: char) { sep !in s }

  /** A scope as it stands in a key. */
  function Scope(cs: seq<string>): string {
    if cs == [] then "/" else "/" + cs[0] + Scope(cs[1..])
  }

  function Key(tenant: string, topic: string, cs: seq<string>): string {
    tenant + "." + topic + Scope(cs)
  }

  /** The components of a scope: no slash in them. */
  predicate Components(cs: seq<string>) {
    forall i :: 0 <= i < |cs| ==> Free(cs[i], '/')
  }

  // ---- prefixes --------------------------------------------------------------------------

  /** Fields that end at a separator agree, or neither text continues the other. */
  lemma {:induction false} FirstField(a: string, b: string, r: string, q: string, sep: char)
    requires Free(a, sep) && Free(b, sep)
    requires r != "" && r[0] == sep && q != "" && q[0] == sep
    ensures a + r <= b + q <==> a == b && r <= q
  {
    if a == "" {
      assert a + r == r;
      if b == "" {
        assert b + q == q;
      } else {
        assert (b + q)[0] == b[0] && b[0] in b;
      }
    } else if b == "" {
      assert b + q == q && (a + r)[0] == a[0] && a[0] in a;
    } else {
      assert a + r == [a[0]] + (a[1..] + r) && b + q == [b[0]] + (b[1..] + q);
      FirstField(a[1..], b[1..], r, q, sep);
      Heads(a[0], b[0], a[1..] + r, b[1..] + q);
      assert a == [a[0]] + a[1..] && b == [b[0]] + b[1..];
    }
  }

  lemma Heads(c: char, d: char, s: string, t: string)
    ensures [c] + s <= [d] + t <==> c == d && s <= t
  {
    var u, v := [c] + s, [d] + t;
    assert u[1..] == s && v[1..] == t;
    assert u[0] == c && v[0] == d;
    if |u| <= |v| {
      var w := v[..|u|];
      assert w == [d] + t[..|s|] && w[0] == d && w[1..] == t[..|s|];
    }
  }

  lemma {:induction false} ScopePrefix(cs: seq<string>, ds: seq<string>)
    requires Components(cs) && Components(ds)
    ensures Scope(cs) <= Scope(ds) <==> cs <= ds
    decreases |cs|
  {
    if cs != [] {
      if ds == [] {
        assert |Scope(cs)| > 1;
      } else {
        ScopePrefix(cs[1..], ds[1..]);
        FirstField(cs[0], ds[0], Scope(cs[1..]), Scope(ds[1..]), '/');
        Heads('/', '/', cs[0] + Scope(cs[1..]), ds[0] + Scope(ds[1..]));
        assert "/" + cs[0] + Scope(cs[1..]) == ['/'] + (cs[0] + Scope(cs[1..]));
        assert "/" + ds[0] + Scope(ds[1..]) == ['/'] + (ds[0] + Scope(ds[1..]));
        assert cs == [cs[0]] + cs[1..] && ds == [ds[0]] + ds[1..];
      }
    }
  }

  /** A scoped subscription is a prefix of a publication exactly when tenant and topic are the same
  and the scope begins with the subscription's. */
  lemma KeysMeet(t: string, a: string, cs: seq<string>, u: string, b: string, ds: seq<string>)
    requires Free(t, '.') && Free(u, '.') && Free(a, '/') && Free(b, '/')
    requires Components(cs) && Components(ds)
    ensures Key(t, a, cs) <= Key(u, b, ds) <==> t == u && a == b && cs <= ds
  {
    ScopePrefix(cs, ds);
    FirstField(a, b, Scope(cs), Scope(ds), '/');
    var r, q := ['.'] + (a + Scope(cs)), ['.'] + (b + Scope(ds));
    Heads('.', '.', a + Scope(cs), b + Scope(ds));
    FirstField(t, u, r, q, '.');
    assert Key(t, a, cs) == t + r && Key(u, b, ds) == u + q;
  }

  /** A subscription without a scope also meets longer topics: it need only begin them. */
  lemma NoScopeMeets(t: string, a: string, u: string, b: string, ds: seq<string>)
    requires Free(t, '.') && Free(u, '.') && Free(a, '/') && Free(b, '/')
    ensures t + "." + a <= Key(u, b, ds) <==> t == u && a <= b
  {
    var r, q := ['.'] + a, ['.'] + (b + Scope(ds));
    Heads('.', '.', a, b + Scope(ds));
    FirstField(t, u, r, q, '.');
    assert t + "." + a == t + r && Key(u, b, ds) == u + q;
    Within(a, b, Scope(ds));
  }

  lemma Within(a: string, b: string, s: string)
    requires Free(a, '/') && s != "" && s[0] == '/'
    ensures a <= b + s <==> a <= b
  {
    if |a| > |b| {
      assert a[|b|] in a;
      assert (b + s)[|b|] == '/';
    } else {
      assert (b + s)[..|a|] == b[..|a|];
    }
  }

  // ---- building the keys -----------------------------------------------------------------

  function NonEmpty(fs: seq<string>): seq<string> {
    if fs == [] then [] else (if fs[0] == "" then [] else [fs[0]]) + NonEmpty(fs[1..])
  }

  /** What strtok_r yields, one piece after the other. */
  function Pieces(s: string): seq<string> {
    NonEmpty(T.Split(s, '/'))
  }

  lemma {:induction false} SplitFree(s: string, sep: char)
    ensures forall i :: 0 <= i < |T.Split(s, sep)| ==> Free(T.Split(s, sep)[i], sep)
  {
    if s != "" {
      SplitFree(s[..|s| - 1], sep);
    }
  }

  lemma {:induction false} NonEmptyFree(fs: seq<string>)
    requires forall i :: 0 <= i < |fs| ==> Free(fs[i], '/')
    ensures Components(NonEmpty(fs))
  {
    if fs != [] {
      NonEmptyFree(fs[1..]);
    }
  }

  lemma {:induction false} NonEmptyPlus(fs: seq<string>, gs: seq<string>)
    ensures NonEmpty(fs + gs) == NonEmpty(fs) + NonEmpty(gs)
  {
    if fs == [] {
      assert fs + gs == gs;
    } else {
      NonEmptyPlus(fs[1..], gs);
      assert (fs + gs)[0] == fs[0] && (fs + gs)[1..] == fs[1..] + gs;
      Together(if fs[0] == "" then [] else [fs[0]], NonEmpty(fs[1..]), NonEmpty(gs));
    }
  }

  lemma Together(a: seq<string>, b: seq<string>, c: seq<string>)
    ensures a + (b + c) == a + b + c
  {
  }

  /** Strings are cut at slashes, and only there: a string without one is one piece, or none if it is
  empty, and a slash puts pieces side by side. */
  lemma PiecesCut(a: string, b: string)
    ensures Pieces(a + "/" + b) == Pieces(a) + Pieces(b)
    ensures Free(a, '/') ==> Pieces(a) == if a == "" then [] else [a]
  {
    T.SplitPlus(a, b, '/');
    NonEmptyPlus(T.Split(a, '/'), T.Split(b, '/'));
    if Free(a, '/') {
      T.SplitOne(a, '/');
      assert [a][1..] == [];
    }
  }

  /** No piece is empty or holds a slash. */
  lemma PiecesProper(s: string)
    ensures Components(Pieces(s)) && "" !in Pieces(s)
  {
    SplitFree(s, '/');
    NonEmptyFree(T.Split(s, '/'));
    NoneEmpty(T.Split(s, '/'));
  }

  lemma {:induction false} NoneEmpty(fs: seq<string>)
    ensures "" !in NonEmpty(fs)
  {
    if fs != [] {
      NoneEmpty(fs[1..]);
    }
  }

  function Strung(fs: seq<string>): string {
    if fs == [] then "" else fs[0] + Strung(fs[1..])
  }

  function Slashless(s: string): string {
    if s == "" then "" else Slashless(s[..|s| - 1]) + if s[|s| - 1] == '/' then "" else [s[|s| - 1]]
  }

  lemma {:induction false} StrungMore(fs: seq<string>, c: char)
    requires fs != []
    ensures Strung(fs[..|fs| - 1] + [fs[|fs| - 1] + [c]]) == Strung(fs) + [c]
    ensures Strung(fs + [""]) == Strung(fs)
  {
    if |fs| == 1 {
      assert fs[..0] + [fs[0] + [c]] == [fs[0] + [c]];
      assert [fs[0] + [c]][1..] == [] && fs[1..] == [] && (fs + [""])[1..] == [""] && [""][1..] == [];
    } else {
      var rest := fs[1..];
      StrungMore(rest, c);
      assert (fs + [""])[1..] == rest + [""];
      assert (fs[..|fs| - 1] + [fs[|fs| - 1] + [c]])[1..] == rest[..|rest| - 1] + [rest[|rest| - 1] + [c]];
    }
  }

  lemma {:induction false} SplitStrung(s: string)
    ensures Strung(T.Split(s, '/')) == Slashless(s)
  {
    if s == "" {
      assert [""][1..] == [];
    } else {
      SplitStrung(s[..|s| - 1]);
      StrungMore(T.Split(s[..|s| - 1], '/'), s[|s| - 1]);
    }
  }

  lemma {:induction false} NonEmptyStrung(fs: seq<string>)
    ensures Strung(NonEmpty(fs)) == Strung(fs)
  {
    if fs != [] {
      NonEmptyStrung(fs[1..]);
      var rest := NonEmpty(fs[1..]);
      assert [] + rest == rest && ([fs[0]] + rest)[1..] == rest;
    }
  }

  /** Strung together, the pieces are the string without its slashes. */
  lemma PiecesStrung(s: string)
    ensures Strung(Pieces(s)) == Slashless(s)
  {
    SplitStrung(s);
    NonEmptyStrung(T.Split(s, '/'));
  }

  /** Taking a scope apart gives back what it was strung together from. */
  lemma {:induction false} PiecesOfScope(cs: seq<string>)
    requires Components(cs) && "" !in cs
    ensures Pieces(Scope(cs)) == cs
  {
    hide Pieces;
    PiecesCut("", "");
    if cs == [] {
      assert "" + "/" + "" == "/";
    } else {
      PiecesOfScope(cs[1..]);
      PiecesCut("", cs[0] + Scope(cs[1..]));
      assert Scope(cs) == "" + "/" + (cs[0] + Scope(cs[1..]));
      var rest := Scope(cs[1..])[1..];
      assert Scope(cs[1..]) == "/" + rest;
      PiecesCut(cs[0], rest);
      PiecesCut("", rest);
      assert cs[0] + Scope(cs[1..]) == cs[0] + "/" + rest;
      assert "" + "/" + rest == "/" + rest;
    }
  }

  /** Slashes more or less at either end change nothing. */
  lemma OuterSlashes(s: string)
    ensures Pieces("/" + s) == Pieces(s) && Pieces(s + "/") == Pieces(s)
  {
    hide Pieces;
    PiecesCut("", s);
    PiecesCut(s, "");
    assert "" + "/" + s == "/" + s && s + "/" + "" == s + "/";
  }

  /** The components asked for, with a star standing for the broker's own. */
  function Resolved(asked: seq<string>, own: seq<string>): (cs: seq<string>)
    requires |asked| <= |own|
    ensures |cs| == |asked|
  {
    seq(|asked|, i requires 0 <= i < |asked| => if asked[i] == "*" then own[i] else asked[i])
  }

  lemma {:induction false} ScopeMore(cs: seq<string>, c: string)
    ensures Scope(cs + [c]) == Scope(cs) + c + "/"
  {
    if cs == [] {
      assert [c][1..] == [];
    } else {
      ScopeMore(cs[1..], c);
      assert (cs + [c])[1..] == cs[1..] + [c];
    }
  }

  // dd_broker_set_scope
  method SetScope(own: seq<string>) returns (brokerScope: string)
    ensures brokerScope == Scope(own)
  {
    brokerScope := "/";
    for i := 0 to |own|
      invariant brokerScope == Scope(own[..i])
    {
      ScopeMore(own[..i], own[i]);
      assert own[..i + 1] == own[..i] + [own[i]];
      brokerScope := brokerScope + own[i] + "/";
    }
    assert own[..|own|] == own;
  }

  /** A request and a publication from a broker elsewhere meet exactly when tenant and topic are the
  same and every component asked for is the publisher's, a star meaning the subscriber's own. */
  lemma RequestMeets(t: string, a: string, scope: string, own: seq<string>, u: string, b: string, theirs: seq<string>)
    requires Free(t, '.') && Free(u, '.') && Free(a, '/') && Free(b, '/')
    requires Components(own) && Components(theirs) && |Pieces(scope)| <= |own|
    ensures Key(t, a, Resolved(Pieces(scope), own)) <= Key(u, b, theirs)
      <==> t == u && a == b && |Pieces(scope)| <= |theirs|
           && forall i :: 0 <= i < |Pieces(scope)| ==> theirs[i] == if Pieces(scope)[i] == "*" then own[i] else Pieces(scope)[i]
  {
    SplitFree(scope, '/');
    NonEmptyFree(T.Split(scope, '/'));
    var cs := Resolved(Pieces(scope), own);
    KeysMeet(t, a, cs, u, b, theirs);
    if |cs| <= |theirs| && (forall i :: 0 <= i < |cs| ==> cs[i] == theirs[i]) {
      assert cs == theirs[..|cs|];
    }
  }

  // ---- requests and publications ---------------------------------------------------------

  /** What a client of a tenant asks for: a topic, and a scope as it writes it. */
  datatype Request = Request(tenant: string, topic: string, scope: string)
  {
    predicate NoScope() { scope == "noscope" }

    predicate Proper() { Free(tenant, '.') && Free(tenant, '/') && Free(topic, '/') }

    /** The broker with scope own can serve the request. */
    predicate Fits(own: seq<string>) { NoScope() || |Pieces(scope)| <= |own| }

    /** The key under which the broker files it. */
    function Filed(own: seq<string>): string
      requires Fits(own)
    {
      if NoScope() then tenant + "." + topic else Key(tenant, topic, Resolved(Pieces(scope), own))
    }
  }

  /** The key that s_cb_sub and s_cb_unsub build, for a request no longer than the broker's scope. */
  method SubscriptionKey(r: Request, own: seq<string>) returns (key: string)
    requires r.Fits(own)
    ensures key == r.Filed(own)
  {
    if r.scope == "noscope" {
      return r.tenant + "." + r.topic;
    }
    var asked := Pieces(r.scope);
    ghost var cs := Resolved(asked, own);
    var newScope := "";
    for j := 0 to |asked|
      invariant newScope + "/" == Scope(cs[..j])
    {
      var c := if asked[j] == "*" then own[j] else asked[j];
      ScopeMore(cs[..j], c);
      assert cs[..j + 1] == cs[..j] + [c];
      newScope := newScope + "/" + c;
    }
    assert cs[..|asked|] == cs;
    key := r.tenant + "." + r.topic + (newScope + "/");
  }

  /** What a client of a tenant publishes at a broker with scope theirs. A topic that begins with
  "public." leaves the tenant; one that ends with a dollar sign leaves the scope out. */
  datatype Publication = Publication(tenant: string, topic: string, theirs: seq<string>)
  {
    predicate Bare() { topic != "" && topic[|topic| - 1] == '$' }

    function Base(): string { if Bare() then topic[..|topic| - 1] else topic }

    predicate Proper() { Free(tenant, '.') && Free(tenant, '/') && Free(topic, '/') && Components(theirs) }

    /** The tenant whose clients it is for. */
    function Audience(): string { if B.Public(topic) then "public" else tenant }

    /** The topic as that tenant names it. */
    function Subject(): string {
      if B.Public(topic) && |Base()| >= 7 then Base()[7..] else Base()
    }

    /** The key under which it is looked up. */
    function Published(): string {
      if Bare() then Audience() + "." + Subject() else Key(Audience(), Subject(), theirs)
    }
  }

  /** The key under which a request is filed, letter by letter: no scope at all, or the components in
  their order, a star being the broker's own. */
  lemma FiledExact(t: string, a: string, cs: seq<string>, own: seq<string>)
    requires Components(cs) && "" !in cs && |cs| <= |own|
    ensures Request(t, a, "noscope").Filed(own) == t + "." + a
    ensures var r := Request(t, a, Scope(cs));
      && r.Fits(own)
      && r.Filed(own) == t + "." + a + Scope(seq(|cs|, i requires 0 <= i < |cs| => if cs[i] == "*" then own[i] else cs[i]))
  {
    hide Pieces, Scope;
    PiecesOfScope(cs);
    ScopeStarts(cs);
  }

  lemma ScopeStarts(cs: seq<string>)
    ensures Scope(cs) != "noscope"
  {
    assert Scope(cs)[0] == '/' && "noscope"[0] == 'n';
  }

  /** What a client asks for with the scope "cluster", at a broker of cluster 2 in region 1. */
  lemma ClusterRequest()
    ensures var r := Request("t", "news", "/*/*/"); r.Fits(["1", "2"]) && r.Filed(["1", "2"]) == "t.news/1/2/"
  {
    var cs := ["*", "*"];
    assert cs[1..] == ["*"] && ["*"][1..] == [];
    assert Scope(cs) == "/*/*/";
    FiledExact("t", "news", cs, ["1", "2"]);
    var os := seq(2, i requires 0 <= i < 2 => if cs[i] == "*" then ["1", "2"][i] else cs[i]);
    assert os == ["1", "2"];
    assert os[1..] == ["2"] && ["2"][1..] == [];
    assert Scope(os) == "/1/2/";
    assert "t" + "." + "news" + "/1/2/" == "t.news/1/2/";
  }

  /** The key under which a publication is looked up, letter by letter: without the tenant if the topic
  names the public one, and without the scope if a dollar sign ends the topic. */
  lemma PublishedExact(t: string, a: string, theirs: seq<string>)
    ensures a != "" && a[|a| - 1] != '$' ==>
      Publication(t, a, theirs).Published() == (if "public." <= a then a else t + "." + a) + Scope(theirs)
    ensures Publication(t, a + "$", theirs).Published() == if "public." <= a then a else t + "." + a
  {
    hide Scope;
    var p, q := Publication(t, a, theirs), Publication(t, a + "$", theirs);
    assert q.topic[..|q.topic| - 1] == a;
    SamePublic(a);
    if B.Public(a) {
      if a[|a| - 1] != '$' {
        PublicBase(p);
      }
      PublicBase(q);
      assert "public" + "." == "public.";
    }
  }

  lemma SamePublic(a: string)
    ensures B.Public(a + "$") <==> B.Public(a)
  {
    var b := a + "$";
    if B.Public(b) {
      assert b[6] == '.';
      assert b[..7] == a[..7];
    }
  }

  lemma PublicBase(p: Publication)
    requires B.Public(p.topic)
    ensures |p.Base()| >= 7 && p.Base() == "public." + p.Subject()
  {
    assert p.topic[..7] == "public.";
    assert p.topic[6] == '.';
    assert p.Base()[..7] == "public.";
  }

  // s_cb_pub, as far as the key
  method PublicationKey(p: Publication, brokerScope: string) returns (key: string)
    requires p.topic != "" && brokerScope == Scope(p.theirs)
    ensures key == p.Published()
  {
    var dstPublic := "public." <= p.topic;
    var prefixTopic := p.topic + brokerScope;
    if p.topic[|p.topic| - 1] == '$' {
      prefixTopic := p.topic[..|p.topic| - 1];
    }
    if dstPublic {
      PublicBase(p);
      key := prefixTopic;
      assert "public" + "." == "public.";
      assert key == p.Published();
    } else {
      key := p.tenant + "." + prefixTopic;
    }
  }

  /** A request of a client and a publication meet. */
  predicate Meets(r: Request, own: seq<string>, p: Publication)
    requires r.Fits(own)
  {
    r.tenant == p.Audience() &&
    if r.NoScope() then r.topic <= p.Subject()
    else
      var asked := Pieces(r.scope);
      && !p.Bare() && r.topic == p.Subject() && |asked| <= |p.theirs|
      && forall i :: 0 <= i < |asked| ==> p.theirs[i] == if asked[i] == "*" then own[i] else asked[i]
  }

  lemma SubjectFree(p: Publication)
    requires p.Proper()
    ensures Free(p.Audience(), '.') && Free(p.Audience(), '/') && Free(p.Subject(), '/')
  {
    assert forall c :: c in p.Base() ==> c in p.topic;
    assert forall c :: c in p.Subject() ==> c in p.Base();
  }

  /** A scoped key never begins one without a slash. */
  lemma ScopedNeedsSlash(t: string, a: string, cs: seq<string>, key: string)
    requires Free(key, '/')
    ensures !(Key(t, a, cs) <= key)
  {
    var k, n := Key(t, a, cs), |t| + 1 + |a|;
    assert Scope(cs)[0] == '/';
    assert k[n] == '/';
    assert n < |key| ==> key[n] in key;
  }

  lemma BareMeets(t: string, a: string, u: string, b: string)
    requires Free(t, '.') && Free(u, '.')
    ensures t + "." + a <= u + "." + b <==> t == u && a <= b
  {
    var r, q := ['.'] + a, ['.'] + b;
    Heads('.', '.', a, b);
    FirstField(t, u, r, q, '.');
    assert t + "." + a == t + r && u + "." + b == u + q;
  }

  /** What a broker has filed for a request begins what a publication is looked up by exactly when the
  two meet, with stars, without scopes, and across to the public tenant. */
  lemma FiledMeets(r: Request, own: seq<string>, p: Publication)
    requires r.Proper() && r.Fits(own) && Components(own) && p.Proper()
    ensures r.Filed(own) <= p.Published() <==> Meets(r, own, p)
  {
    hide Pieces, Scope, Resolved, Key;
    SubjectFree(p);
    var u, b := p.Audience(), p.Subject();
    if r.NoScope() {
      if p.Bare() {
        BareMeets(r.tenant, r.topic, u, b);
      } else {
        NoScopeMeets(r.tenant, r.topic, u, b, p.theirs);
      }
    } else {
      if p.Bare() {
        ScopedNeedsSlash(r.tenant, r.topic, Resolved(Pieces(r.scope), own), u + "." + b);
      } else {
        RequestMeets(r.tenant, r.topic, r.scope, own, u, b, p.theirs);
      }
    }
  }

  /** What a broker looks up finds only requests of one tenant: the public one if the topic begins with
  "public.", else the publisher's.  So a publication of another tenant than the public one reaches
  the public tenant exactly when its topic begins with "public.". */
  lemma PublicationTenants(r: Request, own: seq<string>, p: Publication)
    requires r.Proper() && r.Fits(own) && Components(own) && p.Proper() && r.Filed(own) <= p.Published()
    ensures r.tenant == if B.Public(p.topic) then "public" else p.tenant
    ensures p.tenant != "public" ==> (r.tenant == "public" <==> B.Public(p.topic))
  {
    hide Pieces, Request.Filed, Publication.Published;
    FiledMeets(r, own, p);
  }
}
