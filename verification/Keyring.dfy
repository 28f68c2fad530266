/** The docker keyring: credentials by registry key, and an index of the keys in reverse order so that
    more specific keys are tried first. URL parsing and matching are given as functions. */
module Keyring {
  import opened Options
  import opened Sorting

  datatype Entry = Entry(username: string, password: string, email: string, provider: Option<string>)

  datatype Auth = Lazy(provider: string) | Static(username: string, password: string, email: string)

  datatype URL = URL(host: string, path: string)

  type Creds = map<string, seq<Auth>>

  function AuthOf(e: Entry): Auth {
    if e.provider.Some? then Lazy(e.provider.value) else Static(e.username, e.password, e.email)
  }

  /** The key under which the credentials of a location are filed, unless the location is not a URL. */
  function KeyOf(parse: string -> Option<URL>, loc: string): Option<string> {
    var value := if "https://" <= loc || "http://" <= loc then loc else "https://" + loc;
    match parse(value)
    case None => None
    case Some(u) =>
      var path := if "/v2/" <= u.path || "/v1/" <= u.path then u.path[3..] else u.path;
      Some(if path != "" && path != "/" then u.host + path else u.host)
  }

  /** An entry with a provider stands for what the provider will give, any other for its own three fields. */
  lemma {:induction false} AuthMeans(e: Entry)
    ensures e.provider.Some? ==> AuthOf(e).Lazy? && AuthOf(e).provider == e.provider.value
    ensures e.provider.None? ==>
              && AuthOf(e).Static? && AuthOf(e).username == e.username && AuthOf(e).password == e.password
              && AuthOf(e).email == e.email
  {
  }

  /** A location without a scheme is filed as if it had "https://". */
  lemma {:induction false} KeyWithoutScheme(parse: string -> Option<URL>, loc: string)
    requires !("https://" <= loc) && !("http://" <= loc)
    ensures KeyOf(parse, loc) == KeyOf(parse, "https://" + loc)
  {
  }

  /** The key of a location with a scheme: host and path, without the version at the beginning of the path, and
      without a path that is empty or a slash. */
  lemma {:induction false} KeyMeans(parse: string -> Option<URL>, loc: string, rest: string)
    requires "https://" <= loc || "http://" <= loc
    ensures parse(loc).None? <==> KeyOf(parse, loc).None?
    ensures parse(loc).Some? ==>
              var u, key := parse(loc).value, KeyOf(parse, loc).value;
              && (u.path in {"", "/", "/v1/", "/v2/"} ==> key == u.host)
              && ((u.path == "/v1/" + rest || u.path == "/v2/" + rest) && rest != "" ==> key == u.host + "/" + rest)
              && (u.path !in {"", "/"} && !("/v1/" <= u.path) && !("/v2/" <= u.path) ==> key == u.host + u.path)
  {
    if parse(loc).Some? {
      var u := parse(loc).value;
      if u.path == "/v1/" + rest || u.path == "/v2/" + rest {
        assert u.path[3..] == "/" + rest;
        assert u.host + ("/" + rest) == u.host + "/" + rest;
      }
      assert "/v1/"[3..] == "/" && "/v2/"[3..] == "/";
    }
  }

  function At(creds: Creds, key: string): seq<Auth> {
    if key in creds then creds[key] else []
  }

  // ----- the index -----

  /** Strictly decreasing. */
  ghost predicate ReverseSorted(index: seq<string>) {
    forall i, j :: 0 <= i < j < |index| ==> StringLeq(index[j], index[i]) && index[i] != index[j]
  }

  predicate StringGeq(a: string, b: string) {
    StringLeq(b, a)
  }

  lemma {:induction false} StringGeqPreorder()
    ensures TotalPreorder(StringGeq)
  {
    forall x, y ensures StringGeq(x, y) || StringGeq(y, x) { StringLeqTotal(x, y); }
    forall x, y, z | StringGeq(x, y) && StringGeq(y, z) ensures StringGeq(x, z) { StringLeqTransitive(z, y, x); }
  }

  /** A reverse-sorted index is determined by its keys. */
  lemma {:induction false} IndexUnique(a: seq<string>, b: seq<string>)
    requires ReverseSorted(a) && ReverseSorted(b) && forall k :: k in a <==> k in b
    ensures a == b
  {
    forall x, y | StringGeq(x, y) && StringGeq(y, x) ensures x == y { StringLeqTotal(x, y); }
    SortedUnique(StringGeq, a, b);
  }

  /** A key comes before every key that is a proper prefix of it. */
  lemma {:induction false} SpecificFirst(index: seq<string>, i: nat, j: nat)
    requires ReverseSorted(index) && i < |index| && j < |index| && index[j] < index[i]
    ensures i < j
  {
    PrefixLeq(index[j], index[i]);
    StringLeqTotal(index[i], index[j]);
  }

  // ----- adding -----

  /** The credentials after the locations in the given order were added. */
  function AddAll(parse: string -> Option<URL>, creds: Creds, cfg: map<string, Entry>, order: seq<string>): Creds
    requires forall i :: 0 <= i < |order| ==> order[i] in cfg
  {
    if order == [] then creds
    else
      var last := |order| - 1;
      var c := AddAll(parse, creds, cfg, order[..last]);
      match KeyOf(parse, order[last])
      case None => c
      case Some(k) => c[k := At(c, k) + [AuthOf(cfg[order[last]])]]
  }

  /** The locations of a configuration that contribute auth to key. */
  ghost function Sources(parse: string -> Option<URL>, cfg: map<string, Entry>, locs: seq<string>, key: string,
                         auth: Auth): set<string> {
    set l | l in locs && l in cfg && KeyOf(parse, l) == Some(key) && AuthOf(cfg[l]) == auth
  }

  predicate Yields(parse: string -> Option<URL>, loc: string, e: Entry, key: string, auth: Auth) {
    KeyOf(parse, loc) == Some(key) && AuthOf(e) == auth
  }

  lemma {:induction false} SourcesSnoc(parse: string -> Option<URL>, cfg: map<string, Entry>, front: seq<string>,
                                       l: string, key: string, auth: Auth)
    requires l !in front && l in cfg
    ensures |Sources(parse, cfg, front + [l], key, auth)|
         == |Sources(parse, cfg, front, key, auth)| + if Yields(parse, l, cfg[l], key, auth) then 1 else 0
  {
    var before, after := Sources(parse, cfg, front, key, auth), Sources(parse, cfg, front + [l], key, auth);
    if Yields(parse, l, cfg[l], key, auth) {
      assert after == before + {l};
    } else {
      assert after == before;
    }
  }

  lemma {:induction false} AddOneCounts(creds: Creds, k: string, x: Auth, key: string, auth: Auth)
    ensures multiset(At(creds[k := At(creds, k) + [x]], key))[auth]
         == multiset(At(creds, key))[auth] + if k == key && x == auth then 1 else 0
  {
  }

  /** Whatever the order, each key gains each credential once per location that yields it. */
  lemma {:induction false} AddAllCounts(parse: string -> Option<URL>, creds: Creds, cfg: map<string, Entry>,
                                        order: seq<string>, key: string, auth: Auth)
    requires NoDuplicates(order) && forall i :: 0 <= i < |order| ==> order[i] in cfg
    ensures multiset(At(AddAll(parse, creds, cfg, order), key))[auth]
         == multiset(At(creds, key))[auth] + |Sources(parse, cfg, order, key, auth)|
  {
    if order == [] {
      assert Sources(parse, cfg, order, key, auth) == {};
    } else {
      var front, l := order[..|order| - 1], order[|order| - 1];
      assert order == front + [l];
      AddAllCounts(parse, creds, cfg, front, key, auth);
      SourcesSnoc(parse, cfg, front, l, key, auth);
      var k := KeyOf(parse, l);
      if k.Some? { AddOneCounts(AddAll(parse, creds, cfg, front), k.value, AuthOf(cfg[l]), key, auth); }
    }
  }

  lemma {:induction false} AddAllKeys(parse: string -> Option<URL>, creds: Creds, cfg: map<string, Entry>,
                                      order: seq<string>)
    requires forall i :: 0 <= i < |order| ==> order[i] in cfg
    ensures forall k :: k in AddAll(parse, creds, cfg, order) <==>
              k in creds || exists l :: l in order && KeyOf(parse, l) == Some(k)
    ensures (forall k :: k in creds ==> creds[k] != []) ==>
              forall k :: k in AddAll(parse, creds, cfg, order) ==> AddAll(parse, creds, cfg, order)[k] != []
  {
    if order != [] {
      var last := |order| - 1;
      assert order == order[..last] + [order[last]];
      AddAllKeys(parse, creds, cfg, order[..last]);
    }
  }

  /** The order in which a configuration is walked shows only in the order of credentials under one
      key: the keys and, per key, the credentials with their number are the same. */
  lemma {:induction false} OrderIrrelevant(parse: string -> Option<URL>, creds: Creds, cfg: map<string, Entry>,
                                           a: seq<string>, b: seq<string>)
    requires NoDuplicates(a) && NoDuplicates(b)
    requires forall l :: l in a <==> l in cfg
    requires forall l :: l in b <==> l in cfg
    ensures forall i :: 0 <= i < |a| ==> a[i] in cfg
    ensures forall i :: 0 <= i < |b| ==> b[i] in cfg
    ensures AddAll(parse, creds, cfg, a).Keys == AddAll(parse, creds, cfg, b).Keys
    ensures forall k :: multiset(At(AddAll(parse, creds, cfg, a), k)) == multiset(At(AddAll(parse, creds, cfg, b), k))
  {
    forall k ensures multiset(At(AddAll(parse, creds, cfg, a), k)) == multiset(At(AddAll(parse, creds, cfg, b), k)) {
      SameCredentials(parse, creds, cfg, a, b, k);
    }
    SameKeys(parse, creds, cfg, a, b);
  }

  lemma {:induction false} SameKeys(parse: string -> Option<URL>, creds: Creds, cfg: map<string, Entry>, a: seq<string>,
                                    b: seq<string>)
    requires forall l :: l in a <==> l in cfg
    requires forall l :: l in b <==> l in cfg
    ensures AddAll(parse, creds, cfg, a).Keys == AddAll(parse, creds, cfg, b).Keys
  {
    AddAllKeys(parse, creds, cfg, a);
    AddAllKeys(parse, creds, cfg, b);
  }

  lemma {:induction false} SameCredentials(parse: string -> Option<URL>, creds: Creds, cfg: map<string, Entry>,
                                           a: seq<string>, b: seq<string>, k: string)
    requires NoDuplicates(a) && NoDuplicates(b)
    requires forall l :: l in a <==> l in cfg
    requires forall l :: l in b <==> l in cfg
    ensures multiset(At(AddAll(parse, creds, cfg, a), k)) == multiset(At(AddAll(parse, creds, cfg, b), k))
  {
    var x, y := multiset(At(AddAll(parse, creds, cfg, a), k)), multiset(At(AddAll(parse, creds, cfg, b), k));
    forall auth ensures x[auth] == y[auth] {
      AddAllCounts(parse, creds, cfg, a, k, auth);
      AddAllCounts(parse, creds, cfg, b, k, auth);
      assert Sources(parse, cfg, a, k, auth) == Sources(parse, cfg, b, k, auth);
    }
  }

  /** What a key held before stays, in its place, before what is added. */
  lemma {:induction false} AddAllAppends(parse: string -> Option<URL>, creds: Creds, cfg: map<string, Entry>,
                                         order: seq<string>, key: string)
    requires forall i :: 0 <= i < |order| ==> order[i] in cfg
    ensures At(creds, key) <= At(AddAll(parse, creds, cfg, order), key)
  {
    if order != [] {
      AddAllAppends(parse, creds, cfg, order[..|order| - 1], key);
    }
  }

  // ----- looking up -----

  /** The credentials of the matching keys, in index order. */
  function Matching(index: seq<string>, creds: Creds, matches: (string, string) -> bool, image: string): seq<Auth> {
    if index == [] then []
    else
      var last := |index| - 1;
      Matching(index[..last], creds, matches, image)
        + if matches(index[last], image) then At(creds, index[last]) else []
  }

  lemma {:induction false} MatchingMembers(index: seq<string>, creds: Creds, matches: (string, string) -> bool,
                                           image: string)
    ensures forall a :: a in Matching(index, creds, matches, image) <==>
              exists k :: k in index && matches(k, image) && a in At(creds, k)
  {
    if index != [] {
      var last := |index| - 1;
      assert index == index[..last] + [index[last]];
      MatchingMembers(index[..last], creds, matches, image);
    }
  }

  /** The credentials come key by key in the order of the index, and in the order in which each key holds them. */
  lemma {:induction false} MatchingInOrder(before: seq<string>, key: string, after: seq<string>, creds: Creds,
                                           matches: (string, string) -> bool, image: string)
    ensures Matching(before + [key] + after, creds, matches, image)
         == Matching(before, creds, matches, image)
            + (if matches(key, image) && key in creds then creds[key] else [])
            + Matching(after, creds, matches, image)
  {
    MatchingAppend(before + [key], after, creds, matches, image);
    assert (before + [key])[..|before|] == before;
  }

  lemma {:induction false} MatchingAppend(a: seq<string>, b: seq<string>, creds: Creds,
                                          matches: (string, string) -> bool, image: string)
    ensures Matching(a + b, creds, matches, image)
         == Matching(a, creds, matches, image) + Matching(b, creds, matches, image)
  {
    if b == [] {
      assert a + b == a;
    } else {
      var front := b[..|b| - 1];
      assert (a + b)[..|a + b| - 1] == a + front;
      MatchingAppend(a, front, creds, matches, image);
    }
  }

  const DEFAULT_REGISTRY_HOST := "index.docker.io"

  function FirstSlash(image: string): (i: nat)
    ensures i <= |image| && (i < |image| ==> image[i] == '/') && forall j :: 0 <= j < i ==> image[j] != '/'
  {
    if image == "" || image[0] == '/' then 0 else 1 + FirstSlash(image[1..])
  }

  /** The image is pulled from the default registry: its first part is no host name. */
  predicate IsDefaultRegistryMatch(image: string) {
    var first := image[..FirstSlash(image)];
    first != "" && (first == image || first == "docker.io" || first == DEFAULT_REGISTRY_HOST
                    || ('.' !in first && ':' !in first))
  }

  /** An image is pulled from the default registry if it has no slash, or if what is before its first slash is
      docker.io, index.docker.io or no host name; an image that is empty or begins with a slash never is. */
  lemma {:induction false} DefaultRegistryMeans(image: string)
    ensures IsDefaultRegistryMatch(image) <==>
              && image != "" && image[0] != '/'
              && (|| '/' !in image || "docker.io/" <= image || "index.docker.io/" <= image
                  || forall i :: 0 <= i < |image| && image[i] in {'.', ':'} ==> '/' in image[..i])
  {
    var k := FirstSlash(image);
    var first := image[..k];
    BeforeSlash(image, "docker.io");
    BeforeSlash(image, "index.docker.io");
    assert first == image <==> k == |image|;
    if '.' !in first && ':' !in first {
      forall i | 0 <= i < |image| && image[i] in {'.', ':'} ensures '/' in image[..i] || '/' !in image {
        assert i >= k || first[i] == image[i];
        assert i > k ==> image[..i][k] == '/';
      }
    }
    forall i | 0 <= i < k ensures '/' !in image[..i] {
    }
  }

  lemma {:induction false} BeforeSlash(image: string, host: string)
    requires '/' !in host
    ensures host + "/" <= image <==> FirstSlash(image) < |image| && image[..FirstSlash(image)] == host
  {
    var k := FirstSlash(image);
    if host + "/" <= image {
      assert image[|host|] == '/' && image[..|host|] == host;
      forall i | 0 <= i < |host| ensures image[i] != '/' { assert image[..|host|][i] == host[i]; }
      assert k == |host|;
    }
    if k < |image| && image[..k] == host {
      assert image[..k + 1] == host + "/";
    }
  }

  class BasicDockerKeyring {
    var index: seq<string>
    var creds: Creds
    const parse: string -> Option<URL>
    const matches: (string, string) -> bool

    ghost predicate Valid()
      reads this
    {
      && ReverseSorted(index)
      && (forall k :: k in index <==> k in creds)
      && (forall k :: k in creds ==> creds[k] != [])
    }

    constructor (parse: string -> Option<URL>, matches: (string, string) -> bool)
      ensures Valid() && index == [] && creds == map[]
      ensures this.parse == parse && this.matches == matches
    {
      this.parse, this.matches := parse, matches;
      index, creds := [], map[];
    }

    /** Files every location of the configuration, walked in an arbitrary order, and rebuilds the index
        as the reverse-sorted list of exactly the keys. */
    method Add(cfg: map<string, Entry>) returns (ghost order: seq<string>)
      requires Valid()
      modifies this
      ensures NoDuplicates(order) && (forall l :: l in order <==> l in cfg)
      ensures forall i :: 0 <= i < |order| ==> order[i] in cfg
      ensures Valid() && creds == AddAll(parse, old(creds), cfg, order)
    {
      order := [];
      var locs := cfg.Keys;
      while locs != {}
        invariant locs <= cfg.Keys && NoDuplicates(order)
        invariant forall l :: l in order <==> l in cfg && l !in locs
        invariant forall i :: 0 <= i < |order| ==> order[i] in cfg
        invariant creds == AddAll(parse, old(creds), cfg, order)
        invariant forall k :: k in index <==> k in creds
        decreases locs
      {
        var loc :| loc in locs;
        locs := locs - {loc};
        var key := KeyOf(parse, loc);
        ghost var next := order + [loc];
        assert next[..|order|] == order && next[|order|] == loc;
        if key.Some? {
          creds := creds[key.value := At(creds, key.value) + [AuthOf(cfg[loc])]];
          index := index + [key.value];
        }
        order := next;
      }
      AddAllKeys(parse, old(creds), cfg, order);
      var keys := WithoutDuplicates(index);
      StringGeqPreorder();
      index := Sort(StringGeq, keys);
      SameMembers(keys, index);
      PermutedDistinct(keys, index);
    }

    /** The credentials of exactly the matching keys, more specific keys first; without any, those of the
        default registry if the image belongs there. */
    method Lookup(image: string) returns (auths: seq<Auth>, found: bool)
      requires Valid()
      ensures found <==> (exists k :: k in creds && matches(k, image))
                         || (IsDefaultRegistryMatch(image) && "index.docker.io" in creds)
      ensures (exists k :: k in creds && matches(k, image)) ==> auths == Matching(index, creds, matches, image)
      ensures (exists k :: k in creds && matches(k, image)) ==>
                forall a :: a in auths <==> exists k :: k in creds && matches(k, image) && a in creds[k]
      ensures !(exists k :: k in creds && matches(k, image)) ==>
                auths == if found then creds["index.docker.io"] else []
    {
      auths := [];
      for i := 0 to |index|
        invariant auths == Matching(index[..i], creds, matches, image)
      {
        assert index[..i + 1][..i] == index[..i];
        if matches(index[i], image) {
          auths := auths + creds[index[i]];
        }
      }
      assert index[..|index|] == index;
      MatchingMembers(index, creds, matches, image);
      MatchingNonEmpty(index, creds, matches, image);
      if |auths| > 0 {
        return auths, true;
      }
      if IsDefaultRegistryMatch(image) {
        if DEFAULT_REGISTRY_HOST in creds {
          return creds[DEFAULT_REGISTRY_HOST], true;
        }
      }
      auths, found := [], false;
    }
  }

  lemma {:induction false} MatchingNonEmpty(index: seq<string>, creds: Creds, matches: (string, string) -> bool,
                                            image: string)
    requires (forall k :: k in index <==> k in creds) && (forall k :: k in creds ==> creds[k] != [])
    ensures Matching(index, creds, matches, image) != [] <==> exists k :: k in creds && matches(k, image)
  {
    var auths := Matching(index, creds, matches, image);
    MatchingMembers(index, creds, matches, image);
    if auths != [] { assert auths[0] in auths; }
    if k :| k in creds && matches(k, image) {
      assert k in index && creds[k][0] in At(creds, k);
      assert creds[k][0] in auths;
    }
  }

  /** The set of the list, as a list. */
  method WithoutDuplicates(s: seq<string>) returns (r: seq<string>)
    ensures NoDuplicates(r) && forall x :: x in r <==> x in s
  {
    r := [];
    for i := 0 to |s|
      invariant NoDuplicates(r) && forall x :: x in r <==> x in s[..i]
    {
      assert s[..i + 1] == s[..i] + [s[i]];
      if s[i] !in r {
        r := r + [s[i]];
      }
    }
    assert s[..|s|] == s;
  }
}
