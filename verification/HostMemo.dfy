/** URI.parse with its memo of the last host (fasthttp/uri.go:78-97, 237-256, 295-405): the
    shortcuts give what a parse without a memo gives. */
module HostMemo {
  import opened Common
  import opened Octets
  import opened Paths

  const AT: octet := 64
  const QUESTION: octet := 63
  const HASH: octet := 35
  const COLON: octet := 58

  const MaxMemoizedHostLen: nat := 256

  type Bytes = seq<octet>

  datatype Target = Target(scheme: Bytes, host: Bytes, uri: Bytes)

  /** parseHost with the result in lower case, what it leaves in its buffer when it fails,
      validUserinfo, isValidScheme, splitHostURI and lowercaseBytes. */
  datatype Parts = Parts(
    parseHost: Bytes -> Option<Bytes>,
    leaves: Bytes -> Bytes,
    validUserinfo: Bytes -> bool,
    validScheme: Bytes -> bool,
    split: (Bytes, Bytes) -> Target,
    lower: Bytes -> Bytes)

  const HTTPS: Bytes := [104, 116, 116, 112, 115]

  /** What a URI shows. */
  datatype Shown = Shown(scheme: Bytes, host: Bytes, username: Bytes, password: Bytes,
                         pathOriginal: Bytes, path: Bytes, query: Bytes, hash: Bytes)

  const Blank := Shown([], [], [], [], [], [], [], [])

  // ---- parsing without a memo

  predicate HasCTL(s: Bytes) { exists i :: 0 <= i < |s| && (s[i] < 32 || s[i] == 127) }

  predicate SchemeAt(uri: Bytes, i: nat) { i + 3 <= |uri| && uri[i..i + 3] == [COLON, SLASH, SLASH] }

  predicate HasScheme(uri: Bytes) { exists i :: 0 <= i < |uri| && SchemeAt(uri, i) }

  predicate OriginForm(uri: Bytes) { |uri| > 1 && uri[0] == SLASH && uri[1] != SLASH }

  predicate Absolute(host: Bytes, uri: Bytes) { host == [] || (!OriginForm(uri) && HasScheme(uri)) }

  /** The path, query and fragment of uri. */
  function AddPath(v: Shown, uri: Bytes): Shown {
    var q, f := IndexByte(uri, QUESTION), IndexByte(uri, HASH);
    var query := if f >= 0 && q > f then -1 else q;
    var end := if query >= 0 then query else if f >= 0 then f else |uri|;
    v.(pathOriginal := uri[..end], path := Normal(uri[..end]),
       query := if query < 0 then []
                else if f < 0 then uri[query + 1..] else if query < f then uri[query + 1..f] else [],
       hash := if f < 0 then [] else uri[f + 1..])
  }

  function AddUser(v: Shown, auth: Bytes): Shown {
    var i := IndexByte(auth, COLON);
    if i < 0 then v.(username := auth) else v.(username := auth[..i], password := auth[i + 1..])
  }

  /** The userinfo in front of the last @, and the host behind it. */
  function Userinfo(host: Bytes): Option<Bytes> {
    var n := LastIndexByte(host, AT);
    if n >= 0 then Some(host[..n]) else None
  }

  function Bare(host: Bytes): (h: Bytes)
    ensures AT !in h
  {
    host[LastIndexByte(host, AT) + 1..]
  }

  /** From the host on; the scheme has been dealt with. */
  function ParseFrom(v: Shown, host: Bytes, uri: Bytes, p: Parts): (Shown, bool) {
    var auth := Userinfo(host);
    if auth.Some? && !p.validUserinfo(auth.value) then (v, false)
    else
      var v1 := if auth.Some? then AddUser(v, auth.value) else v;
      match p.parseHost(Bare(host))
      case None => (v1.(host := p.leaves(Bare(host))), false)
      case Some(parsed) => (AddPath(v1.(host := parsed), uri), true)
  }

  function SetTLS(v: Shown, isTLS: bool, p: Parts): Shown { if isTLS then v.(scheme := p.lower(HTTPS)) else v }

  /** A parse that remembers nothing: what is shown, and whether it succeeded. */
  function Fresh(host: Bytes, uri: Bytes, isTLS: bool, p: Parts): (Shown, bool) {
    if HasCTL(uri) then (Blank, false)
    else if Absolute(host, uri) then
      var t := p.split(host, uri);
      if t.scheme != [] && !p.validScheme(t.scheme) then (Blank, false)
      else ParseFrom(SetTLS(Blank.(scheme := p.lower(t.scheme)), isTLS, p), t.host, t.uri, p)
    else ParseFrom(SetTLS(Blank, isTLS, p), host, uri, p)
  }

  // ---- what a parse shows, put together again

  /** A query mark that no fragment mark comes before. */
  ghost predicate HasQuery(uri: Bytes) { exists i :: 0 <= i < |uri| && uri[i] == QUESTION && HASH !in uri[..i] }

  /** The parts with their marks are the target; no mark is in the path, and no fragment mark in the query. */
  ghost predicate Rebuilds(v: Shown, uri: Bytes) {
    && uri == v.pathOriginal + (if HasQuery(uri) then [QUESTION] + v.query else [])
              + (if HASH in uri then [HASH] + v.hash else [])
    && QUESTION !in v.pathOriginal && HASH !in v.pathOriginal && HASH !in v.query
    && (!HasQuery(uri) ==> v.query == []) && (HASH !in uri ==> v.hash == [])
    && v.path == Normal(v.pathOriginal)
  }

  lemma FirstMark(s: Bytes, c: octet)
    ensures var i := IndexByte(s, c);
      if i < 0 then c !in s else s[i] == c && c !in s[..i] && forall k :: 0 <= k < i ==> s[k] != c
  {
    var i := IndexByte(s, c);
    if i > 0 {
      FirstMark(s[1..], c);
      assert s[..i] == [s[0]] + s[1..][..i - 1];
      forall k | 0 <= k < i ensures s[k] != c {
        if k > 0 { assert s[k] == s[1..][k - 1]; }
      }
    }
  }

  lemma QueryMark(uri: Bytes)
    ensures var q, f := IndexByte(uri, QUESTION), IndexByte(uri, HASH);
      HasQuery(uri) <==> q >= 0 && (f < 0 || q < f)
  {
    hide IndexByte;
    var q, f := IndexByte(uri, QUESTION), IndexByte(uri, HASH);
    FirstMark(uri, QUESTION);
    FirstMark(uri, HASH);
    if q >= 0 && (f < 0 || q < f) {
      assert uri[q] == QUESTION && HASH !in uri[..q] by {
        assert forall k :: 0 <= k < q ==> uri[..q][k] == uri[k];
      }
    }
    if HasQuery(uri) {
      var i :| 0 <= i < |uri| && uri[i] == QUESTION && HASH !in uri[..i];
      assert forall k :: 0 <= k < i ==> uri[..i][k] == uri[k];
    }
  }

  lemma NotInside(uri: Bytes, i: nat, j: nat, c: octet)
    requires i <= j <= |uri| && forall k :: 0 <= k < j ==> uri[k] != c
    ensures c !in uri[i..j] && c !in uri[..i]
  {
    assert forall k :: 0 <= k < j - i ==> uri[i..j][k] == uri[i + k];
  }

  function Parted(v: Shown, path: Bytes, query: Bytes, hash: Bytes): Shown {
    v.(pathOriginal := path, path := Normal(path), query := query, hash := hash)
  }

  lemma Both(v: Shown, uri: Bytes, q: nat, f: nat)
    requires q < f < |uri| && uri[q] == QUESTION && uri[f] == HASH && HasQuery(uri) && QUESTION !in uri[..q]
    requires forall k :: 0 <= k < f ==> uri[k] != HASH
    ensures Rebuilds(Parted(v, uri[..q], uri[q + 1..f], uri[f + 1..]), uri)
  {
    hide Normal, HasQuery;
    NotInside(uri, q + 1, f, HASH);
    NotInside(uri, q, f, HASH);
    assert uri == uri[..q] + ([QUESTION] + uri[q + 1..f]) + ([HASH] + uri[f + 1..]);
  }

  lemma QueryOnly(v: Shown, uri: Bytes, q: nat)
    requires q < |uri| && uri[q] == QUESTION && HasQuery(uri) && QUESTION !in uri[..q] && HASH !in uri
    ensures Rebuilds(Parted(v, uri[..q], uri[q + 1..], []), uri)
  {
    hide Normal, HasQuery;
    assert uri == uri[..q] + ([QUESTION] + uri[q + 1..]) + [];
  }

  lemma HashOnly(v: Shown, uri: Bytes, f: nat)
    requires f < |uri| && uri[f] == HASH && !HasQuery(uri) && HASH !in uri[..f] && QUESTION !in uri[..f]
    ensures Rebuilds(Parted(v, uri[..f], [], uri[f + 1..]), uri)
  {
    hide Normal, HasQuery;
    assert uri == uri[..f] + [] + ([HASH] + uri[f + 1..]);
  }

  lemma NoMark(v: Shown, uri: Bytes)
    requires QUESTION !in uri && HASH !in uri && !HasQuery(uri)
    ensures Rebuilds(Parted(v, uri, [], []), uri)
  {
    hide Normal, HasQuery;
    assert uri == uri + [] + [];
  }

  lemma PathRebuilt(v: Shown, uri: Bytes)
    ensures Rebuilds(AddPath(v, uri), uri)
    ensures var r := AddPath(v, uri);
      r == v.(pathOriginal := r.pathOriginal, path := r.path, query := r.query, hash := r.hash)
  {
    hide Normal, HasQuery, IndexByte, Rebuilds;
    var q, f := IndexByte(uri, QUESTION), IndexByte(uri, HASH);
    FirstMark(uri, QUESTION);
    FirstMark(uri, HASH);
    QueryMark(uri);
    if q < 0 && f < 0 {
      assert uri[..|uri|] == uri;
      NoMark(v, uri);
    } else if f < 0 {
      QueryOnly(v, uri, q);
    } else if q < 0 || f < q {
      NotInside(uri, f, if q < 0 then |uri| else q, QUESTION);
      HashOnly(v, uri, f);
    } else {
      Both(v, uri, q, f);
    }
  }

  lemma UserRebuilt(v: Shown, auth: Bytes)
    ensures var r := AddUser(v, auth);
      && auth == r.username + (if COLON in auth then [COLON] + r.password else []) && COLON !in r.username
      && r == v.(username := r.username, password := if COLON in auth then r.password else v.password)
  {
    FirstMark(auth, COLON);
    var i := IndexByte(auth, COLON);
    if i >= 0 { assert auth == auth[..i] + [COLON] + auth[i + 1..]; }
  }

  /** The authority is the userinfo, an @, and a host without one; or such a host alone. */
  lemma AuthorityRebuilt(host: Bytes)
    ensures host == (if Userinfo(host).Some? then Userinfo(host).value + [AT] else []) + Bare(host)
    ensures AT !in Bare(host) && (Userinfo(host).Some? <==> AT in host)
  {
    var n := LastIndexByte(host, AT);
    if n >= 0 { assert host == host[..n] + [AT] + host[n + 1..]; } else { assert host[0..] == host; }
  }

  /** Where host and target come from: a target of the absolute form, or any target without a Host,
      names its own. */
  function TargetOf(host: Bytes, uri: Bytes, p: Parts): Target {
    if Absolute(host, uri) then p.split(host, uri) else Target([], host, uri)
  }

  /** What a successful parse shows: each part is the part of the input it stands for. */
  lemma FreshMeans(host: Bytes, uri: Bytes, isTLS: bool, p: Parts)
    requires Fresh(host, uri, isTLS, p).1
    ensures var v, t := Fresh(host, uri, isTLS, p).0, TargetOf(host, uri, p);
      && !HasCTL(uri) && Rebuilds(v, t.uri)
      && p.parseHost(Bare(t.host)) == Some(v.host)
      && v.scheme == (if isTLS then p.lower(HTTPS) else if Absolute(host, uri) then p.lower(t.scheme) else [])
      && (if AT in t.host then
            var auth := t.host[..LastIndexByte(t.host, AT)];
            && p.validUserinfo(auth) && COLON !in v.username
            && auth == v.username + (if COLON in auth then [COLON] + v.password else [])
          else v.username == [] && v.password == [])
  {
    var t := TargetOf(host, uri, p);
    AuthorityRebuilt(t.host);
    var v0 := SetTLS(if Absolute(host, uri) then Blank.(scheme := p.lower(t.scheme)) else Blank, isTLS, p);
    var v1 := if Userinfo(t.host).Some? then AddUser(v0, Userinfo(t.host).value) else v0;
    if Userinfo(t.host).Some? { UserRebuilt(v0, Userinfo(t.host).value); }
    var parsed := p.parseHost(Bare(t.host));
    hide AddPath, AddUser, Rebuilds, HasCTL, Absolute, Bare, LastIndexByte;
    if parsed.Some? { PathRebuilt(v1.(host := parsed.value), t.uri); }
  }

  /** A parse succeeds exactly when no control byte is in the target, a scheme it names is valid, and so are
      userinfo and host. */
  lemma FreshSucceeds(host: Bytes, uri: Bytes, isTLS: bool, p: Parts)
    ensures var t := TargetOf(host, uri, p);
      Fresh(host, uri, isTLS, p).1 <==>
        && !HasCTL(uri) && (t.scheme != [] ==> p.validScheme(t.scheme))
        && (AT in t.host ==> p.validUserinfo(t.host[..LastIndexByte(t.host, AT)]))
        && p.parseHost(t.host[LastIndexByte(t.host, AT) + 1..]).Some?
  {
    hide AddPath, AddUser, Absolute, HasCTL, LastIndexByte;
    var t := TargetOf(host, uri, p);
    BareIs(t.host);
    AuthorityRebuilt(t.host);
    hide Userinfo, Bare;
  }

  lemma ControlBytes(uri: Bytes)
    ensures HasCTL(uri) <==> exists i :: 0 <= i < |uri| && (uri[i] < 32 || uri[i] == 127)
  {
  }

  /** A target with a single slash in front is a path, whatever it holds; with a Host, one without :// is too. */
  lemma PathTargets(host: Bytes, uri: Bytes)
    requires host != [] && |uri| > 1 && uri[0] == SLASH && uri[1] != SLASH
    ensures !Absolute(host, uri)
  {
  }

  lemma SchemeTargets(host: Bytes, scheme: Bytes, rest: Bytes)
    requires scheme != [] && scheme[0] != SLASH
    ensures Absolute(host, scheme + [COLON, SLASH, SLASH] + rest)
  {
    var uri := scheme + [COLON, SLASH, SLASH] + rest;
    assert uri[|scheme|..|scheme| + 3] == [COLON, SLASH, SLASH];
    assert SchemeAt(uri, |scheme|);
  }

  // ---- with the memo

  class URI {
    var shown: Shown
    var hostRaw: Bytes
    var hostParsed: Bytes

    /** A memo holds a host without userinfo and what it parses to. */
    ghost predicate Valid(p: Parts)
      reads this
    {
      hostRaw != [] ==> AT !in hostRaw && p.parseHost(hostRaw) == Some(hostParsed)
    }

    constructor (ghost p: Parts)
      ensures Valid(p)
    {
      shown, hostRaw, hostParsed := Blank, [], [];
    }

    method Reset(ghost p: Parts)
      requires Valid(p)
      modifies this
      ensures Valid(p) && shown == Blank && hostRaw == old(hostRaw) && hostParsed == old(hostParsed)
    {
      shown := Blank;
    }

    /** The destination is cleared first, so a copy of a URI to itself clears it. */
    method CopyTo(dst: URI, ghost p: Parts)
      requires Valid(p) && dst.Valid(p)
      modifies dst
      ensures dst.Valid(p) && dst.shown == if dst == this then Blank else old(shown)
      ensures dst.hostRaw == old(hostRaw) && dst.hostParsed == old(hostParsed)
    {
      dst.Reset(p);
      dst.shown, dst.hostRaw, dst.hostParsed := shown, hostRaw, hostParsed;
    }

    /** The host part, from the memo if it is the one parsed last. */
    method ParseHost(host: Bytes, p: Parts) returns (ok: bool)
      requires Valid(p) && AT !in host
      modifies this
      ensures Valid(p) && ok == p.parseHost(host).Some?
      ensures shown == old(shown).(host := if ok then p.parseHost(host).value else p.leaves(host))
    {
      if |host| != 0 && host == hostRaw {
        shown := shown.(host := hostParsed);
        return true;
      }
      var memo := |host| <= MaxMemoizedHostLen;
      hostRaw := if memo then host else [];
      var parsed := p.parseHost(host);
      if parsed.None? {
        shown, hostRaw := shown.(host := p.leaves(host)), [];
        return false;
      }
      shown := shown.(host := parsed.value);
      hostParsed := if memo then parsed.value else [];
      return true;
    }

    /** Userinfo, host and path. */
    method ParseAuthority(host0: Bytes, uri: Bytes, p: Parts) returns (ok: bool)
      requires Valid(p)
      modifies this
      ensures Valid(p) && (shown, ok) == ParseFrom(old(shown), host0, uri, p)
    {
      hide AddPath, AddUser, Userinfo, Bare;
      var host := host0;
      BareIs(host);
      var n := LastIndexByte(host, AT);
      if n >= 0 {
        if !p.validUserinfo(host[..n]) { return false; }
        shown := AddUser(shown, host[..n]);
        host := host[n + 1..];
      }
      ok := ParseHost(host, p);
      if ok { shown := AddPath(shown, uri); }
    }

    /** Whatever was parsed before, the result is that of a parse without a memo. */
    method Parse(host0: Bytes, uri0: Bytes, isTLS: bool, p: Parts) returns (ok: bool)
      requires Valid(p)
      modifies this
      ensures Valid(p) && (shown, ok) == Fresh(host0, uri0, isTLS, p)
    {
      hide ParseFrom, Absolute, HasCTL;
      Reset(p);
      if |host0| != 0 && |uri0| == 1 && uri0[0] == SLASH && host0 == hostRaw {
        RootParses(host0, uri0, isTLS, p);
        shown := shown.(host := hostParsed, pathOriginal := [SLASH], path := [SLASH]);
        if isTLS { shown := shown.(scheme := p.lower(HTTPS)); }
        return true;
      }
      if HasCTL(uri0) { return false; }
      var host, uri := host0, uri0;
      if Absolute(host, uri) {
        var t := p.split(host, uri);
        if |t.scheme| > 0 && !p.validScheme(t.scheme) { return false; }
        shown := shown.(scheme := p.lower(t.scheme));
        host, uri := t.host, t.uri;
      }
      if isTLS { shown := shown.(scheme := p.lower(HTTPS)); }
      ok := ParseAuthority(host, uri, p);
    }
  }

  /** The shortcut for the root path: a memoized host has no userinfo, and / has neither control
      bytes nor a scheme. */
  lemma RootParses(host: Bytes, uri: Bytes, isTLS: bool, p: Parts)
    requires host != [] && uri == [SLASH] && AT !in host && p.parseHost(host).Some?
    ensures Fresh(host, uri, isTLS, p) ==
      (SetTLS(Blank, isTLS, p).(host := p.parseHost(host).value, pathOriginal := [SLASH], path := [SLASH]), true)
  {
    hide AddPath, HasCTL, HasScheme, ParseFrom;
    RootForm();
    var v := SetTLS(Blank, isTLS, p);
    RootPath(v.(host := p.parseHost(host).value));
    PlainHost(v, host, uri, p);
  }

  /** A host without userinfo. */
  lemma PlainHost(v: Shown, host: Bytes, uri: Bytes, p: Parts)
    requires AT !in host && p.parseHost(host).Some?
    ensures ParseFrom(v, host, uri, p) == (AddPath(v.(host := p.parseHost(host).value), uri), true)
  {
    hide AddPath, AddUser, Userinfo, Bare, LastIndexByte;
    BareIs(host);
  }

  lemma BareIs(host: Bytes)
    ensures var n := LastIndexByte(host, AT);
      if n >= 0 then Userinfo(host) == Some(host[..n]) && Bare(host) == host[n + 1..]
      else Userinfo(host) == None && Bare(host) == host
  {
    assert host[0..] == host;
  }

  lemma RootForm()
    ensures !HasCTL([SLASH]) && !HasScheme([SLASH])
  {
  }

  lemma RootPath(v: Shown)
    ensures AddPath(v, [SLASH]) == v.(pathOriginal := [SLASH], path := [SLASH], query := [], hash := [])
  {
    hide Normal;
    assert IndexByte([SLASH], QUESTION) == -1 && IndexByte([SLASH], HASH) == -1;
    assert [SLASH][..1] == [SLASH];
    RootIsNormal();
  }

  lemma RootIsNormal()
    ensures Normal([SLASH]) == [SLASH]
  {
    assert [SLASH][1..] == [];
    assert Decode([SLASH], false) == [SLASH];
    assert Split([SLASH]) == Path([], []);
  }
}
