/** `URL::split`: a URL is cut into protocol, host, port, path, query and
    reference; the pieces, put together again, are the URL. */
module Url {
  import opened Options
  import opened HttpText

  predicate IsHostnameChar(c: char) {
    'a' <= c <= 'z' || 'A' <= c <= 'Z' || '0' <= c <= '9' || c == '+' || c == '-' || c == '.'
  }

  predicate CheckHostname(v: string) { forall i :: 0 <= i < |v| ==> IsHostnameChar(v[i]) }

  predicate AllOfNumber(v: string) { forall i :: 0 <= i < |v| ==> '0' <= v[i] <= '9' }

  /** `find_last_of` for one character. */
  function FindLast(s: string, c: char): (r: Option<nat>)
    ensures r.Some? ==> r.value < |s| && s[r.value] == c && c !in s[r.value + 1..]
    ensures r.None? ==> c !in s
    decreases |s|
  {
    if s == [] then None
    else if s[|s| - 1] == c then Some(|s| - 1)
    else
      var front := s[..|s| - 1];
      assert s == front + [s[|s| - 1]];
      match FindLast(front, c)
      case None => None
      case Some(i) => assert s[i + 1..] == front[i + 1..] + [s[|s| - 1]]; Some(i)
  }

  /** Brackets, if any, open before they close. */
  predicate CheckIP(v: string) {
    match (Find(v, '['), FindLast(v, ']'))
    case (None, None) => true
    case (Some(open), Some(close)) => open <= close
    case _ => false
  }

  predicate TryPort(v: string) { v != [] && AllOfNumber(v) }

  /** `url` reads as `<host or ip>:<port>`; without a colon `i + 1` wraps to 0. */
  predicate TryHostPort(url: string, colon: Option<nat>)
    requires colon.Some? ==> colon.value < |url|
  {
    var (host, port) := if colon.Some? then (url[..colon.value], url[colon.value + 1..]) else (url, url);
    TryPort(port) && (CheckHostname(host) || CheckIP(host))
  }

  predicate IsDelimiter(c: char) { c == '/' || c == '?' || c == '#' }

  /** Where the host part ends: the first delimiter, or the end. */
  function HostEnd(s: string): (e: nat)
    ensures e <= |s| && (e < |s| ==> IsDelimiter(s[e]))
    ensures forall i :: 0 <= i < e ==> !IsDelimiter(s[i])
  {
    if s == [] || IsDelimiter(s[0]) then 0
    else
      var e := HostEnd(s[1..]) + 1;
      assert forall i :: 1 <= i < e ==> s[i] == s[1..][i - 1];
      e
  }

  datatype Authority = Authority(host: string, port: Option<string>)

  datatype Parts = Parts(
    protocol: string, authority: Option<Authority>, path: string, query: Option<string>, ref: Option<string>)

  // ---------- cutting ----------

  function CutRef(tail: string): (string, Option<string>) {
    match FindLast(tail, '#')
    case None => (tail, None)
    case Some(i) => (tail[..i], Some(tail[i + 1..]))
  }

  function CutQuery(tail: string): (string, Option<string>) {
    match Find(tail, '?')
    case None => (tail, None)
    case Some(i) => (tail[..i], Some(tail[i + 1..]))
  }

  /** Nothing when the part after the last colon does not read as a port. */
  function CutPort(hostport: string): Option<Authority> {
    match FindLast(hostport, ':')
    case None => Some(Authority(hostport, None))
    case Some(i) =>
      if TryHostPort(hostport, Some(i)) then Some(Authority(hostport[..i], Some(hostport[i + 1..]))) else None
  }

  function CutTail(protocol: string, authority: Option<Authority>, tail: string): Parts {
    var (rest, ref) := CutRef(tail);
    var (path, query) := CutQuery(rest);
    Parts(protocol, authority, path, query, ref)
  }

  function CutRest(protocol: string, rest: string): Option<Parts> {
    if "//" <= rest then
      var e := HostEnd(rest[2..]) + 2;
      match CutPort(rest[2..e])
      case None => None
      case Some(a) => Some(CutTail(protocol, Some(a), rest[e..]))
    else Some(CutTail(protocol, None, rest))
  }

  /** The parts, or nothing when one of the two early returns is taken. */
  function Split(url: string): Option<Parts> {
    var colon := Find(url, ':');
    if TryHostPort(url, colon) then None
    else match colon
      case Some(i) => CutRest(url[..i], url[i + 1..])
      case None => CutRest(url, url)
  }

  // ---------- printing ----------

  function Prefixed(c: char, part: Option<string>): string {
    if part.Some? then [c] + part.value else []
  }

  function PrintAuthority(a: Authority): string { a.host + Prefixed(':', a.port) }

  function PrintTail(p: Parts): string { p.path + Prefixed('?', p.query) + Prefixed('#', p.ref) }

  function PrintRest(p: Parts): string {
    if p.authority.Some? then "//" + PrintAuthority(p.authority.value) + PrintTail(p) else PrintTail(p)
  }

  function Print(p: Parts): string { p.protocol + [':'] + PrintRest(p) }

  // ---------- which parts can be recovered ----------

  ghost predicate TailOk(p: Parts) {
    && '?' !in p.path
    && (if p.ref.Some? then '#' !in p.ref.value else '#' !in p.path + Prefixed('?', p.query))
  }

  ghost predicate AuthorityOk(a: Authority) {
    && (forall i :: 0 <= i < |PrintAuthority(a)| ==> !IsDelimiter(PrintAuthority(a)[i]))
    && (if a.port.Some? then TryPort(a.port.value) && (CheckHostname(a.host) || CheckIP(a.host)) else ':' !in a.host)
  }

  /** Parts that are what they say: no separator of a later part inside an earlier
      one, a port of digits, and nothing that reads as `<host>:<port>` as a whole. */
  ghost predicate WellFormed(p: Parts) {
    && ':' !in p.protocol && TailOk(p)
    && (if p.authority.Some?
        then AuthorityOk(p.authority.value) && (PrintTail(p) == [] || IsDelimiter(PrintTail(p)[0]))
        else !("//" <= PrintRest(p)) && !(TryPort(PrintRest(p)) && (CheckHostname(p.protocol) || CheckIP(p.protocol))))
  }

  lemma {:induction false} FindLastAfter(s: string, c: char, t: string)
    requires c !in t
    ensures FindLast(s + [c] + t, c) == Some(|s|)
    decreases |t|
  {
    var w := s + [c] + t;
    if t == [] {
      assert w[|w| - 1] == c;
    } else {
      assert w[|w| - 1] == t[|t| - 1] && w[..|w| - 1] == s + [c] + t[..|t| - 1];
      FindLastAfter(s, c, t[..|t| - 1]);
    }
  }

  lemma TailCut(p: Parts)
    requires TailOk(p)
    ensures CutTail(p.protocol, p.authority, PrintTail(p)) == p
  {
    var rest := p.path + Prefixed('?', p.query);
    RefCut(rest, p.ref);
    QueryCut(p.path, p.query);
    hide Prefixed, CutRef, CutQuery;
    assert PrintTail(p) == rest + Prefixed('#', p.ref);
  }

  lemma RefCut(rest: string, ref: Option<string>)
    requires if ref.Some? then '#' !in ref.value else '#' !in rest
    ensures CutRef(rest + Prefixed('#', ref)) == (rest, ref)
  {
    var tail := rest + Prefixed('#', ref);
    if ref.Some? {
      assert tail == rest + ['#'] + ref.value;
      FindLastAfter(rest, '#', ref.value);
      assert tail[..|rest|] == rest && tail[|rest| + 1..] == ref.value;
    } else {
      assert tail == rest;
    }
  }

  lemma QueryCut(path: string, query: Option<string>)
    requires '?' !in path
    ensures CutQuery(path + Prefixed('?', query)) == (path, query)
  {
    var rest := path + Prefixed('?', query);
    if query.Some? {
      assert rest == path + ['?'] + query.value;
      FindAfter(path, '?', query.value);
      assert rest[..|path|] == path && rest[|path| + 1..] == query.value;
    } else {
      assert rest == path;
    }
  }

  lemma RefPrinted(tail: string)
    ensures var (rest, ref) := CutRef(tail);
      tail == rest + Prefixed('#', ref) && (if ref.Some? then '#' !in ref.value else '#' !in rest)
  {
  }

  lemma QueryPrinted(rest: string)
    ensures var (path, query) := CutQuery(rest); rest == path + Prefixed('?', query) && '?' !in path
  {
  }

  lemma TailPrinted(protocol: string, authority: Option<Authority>, tail: string)
    ensures var p := CutTail(protocol, authority, tail); PrintTail(p) == tail && TailOk(p)
  {
    RefPrinted(tail);
    QueryPrinted(CutRef(tail).0);
    hide CutRef, CutQuery, Prefixed;
  }

  lemma PortCut(a: Authority)
    requires AuthorityOk(a)
    ensures CutPort(PrintAuthority(a)) == Some(a)
  {
    if a.port.Some? {
      var s := PrintAuthority(a);
      assert s == a.host + [':'] + a.port.value;
      assert ':' !in a.port.value;
      FindLastAfter(a.host, ':', a.port.value);
      assert s[..|a.host|] == a.host && s[|a.host| + 1..] == a.port.value;
    } else {
      assert PrintAuthority(a) == a.host;
    }
  }

  lemma PortPrinted(hostport: string)
    requires CutPort(hostport).Some?
    ensures var a := CutPort(hostport).value; PrintAuthority(a) == hostport
    ensures (forall i :: 0 <= i < |hostport| ==> !IsDelimiter(hostport[i])) ==> AuthorityOk(CutPort(hostport).value)
  {
  }

  lemma {:induction false} HostEndAt(host: string, tail: string)
    requires forall i :: 0 <= i < |host| ==> !IsDelimiter(host[i])
    requires tail == [] || IsDelimiter(tail[0])
    ensures HostEnd(host + tail) == |host|
  {
    if host == [] {
      assert host + tail == tail;
    } else {
      assert (host + tail)[1..] == host[1..] + tail;
      HostEndAt(host[1..], tail);
    }
  }

  /** Put together, the parts are the URL, and they are well formed. */
  lemma Reassembled(url: string)
    requires ':' in url && Split(url).Some?
    ensures Print(Split(url).value) == url && WellFormed(Split(url).value)
  {
    hide TryHostPort, TryPort, CheckHostname, CheckIP, Split, CutRest, PrintTail, PrintRest, TailOk, AuthorityOk;
    var i := Find(url, ':').value;
    var protocol, rest := url[..i], url[i + 1..];
    SplitMeans(url);
    assert url == protocol + [':'] + rest;
    RestPrinted(protocol, rest);
    TryHostPortMeans(url, i);
  }

  lemma SplitMeans(url: string)
    requires ':' in url && Split(url).Some?
    ensures var i := Find(url, ':').value;
      Split(url) == CutRest(url[..i], url[i + 1..]) && !TryHostPort(url, Some(i))
  {
    hide TryHostPort, CutRest;
  }

  lemma TryHostPortMeans(url: string, i: nat)
    requires i < |url|
    ensures TryHostPort(url, Some(i)) <==> TryPort(url[i + 1..]) && (CheckHostname(url[..i]) || CheckIP(url[..i]))
  {
    hide TryPort, CheckHostname, CheckIP;
  }

  lemma RestPrinted(protocol: string, rest: string)
    requires CutRest(protocol, rest).Some?
    ensures var p := CutRest(protocol, rest).value;
      && p.protocol == protocol && PrintRest(p) == rest && TailOk(p) && (p.authority.Some? <==> "//" <= rest)
      && (p.authority.Some? ==>
          AuthorityOk(p.authority.value) && (PrintTail(p) == [] || IsDelimiter(PrintTail(p)[0])))
  {
    hide CutTail, CutPort, PrintTail, TailOk, AuthorityOk, PrintAuthority;
    if "//" <= rest {
      var e := HostEnd(rest[2..]) + 2;
      var hp, tail := rest[2..e], rest[e..];
      assert forall k :: 0 <= k < |hp| ==> hp[k] == rest[2..][k];
      PortPrinted(hp);
      TailPrinted(protocol, Some(CutPort(hp).value), tail);
      SameFields(protocol, Some(CutPort(hp).value), tail);
      assert rest == "//" + hp + tail;
      assert tail != [] ==> tail[0] == rest[2..][e - 2];
    } else {
      TailPrinted(protocol, None, rest);
      SameFields(protocol, None, rest);
    }
  }

  lemma SameFields(protocol: string, authority: Option<Authority>, tail: string)
    ensures CutTail(protocol, authority, tail).protocol == protocol
    ensures CutTail(protocol, authority, tail).authority == authority
  {
  }

  lemma RestCut(p: Parts)
    requires WellFormed(p)
    ensures CutRest(p.protocol, PrintRest(p)) == Some(p)
  {
    hide CutTail, CutPort, PrintAuthority, PrintTail, TailOk, AuthorityOk, TryPort, CheckHostname, CheckIP;
    TailCut(p);
    if p.authority.Some? {
      AuthorityShape(p.authority.value);
      AuthorityCut(p.protocol, p.authority.value, PrintTail(p));
    }
  }

  lemma AuthorityShape(a: Authority)
    requires AuthorityOk(a)
    ensures forall i :: 0 <= i < |PrintAuthority(a)| ==> !IsDelimiter(PrintAuthority(a)[i])
  {
  }

  lemma AuthorityCut(protocol: string, a: Authority, tail: string)
    requires AuthorityOk(a) && (tail == [] || IsDelimiter(tail[0]))
    requires forall i :: 0 <= i < |PrintAuthority(a)| ==> !IsDelimiter(PrintAuthority(a)[i])
    ensures CutRest(protocol, "//" + PrintAuthority(a) + tail) == Some(CutTail(protocol, Some(a), tail))
  {
    hide CutTail, CutPort, PrintAuthority, AuthorityOk, HostEnd;
    var hp, rest := PrintAuthority(a), "//" + PrintAuthority(a) + tail;
    PortCut(a);
    HostEndAt(hp, tail);
    assert rest[2..] == hp + tail;
    assert rest[2..2 + |hp|] == hp && rest[2 + |hp|..] == tail;
  }

  /** The parts that printing and cutting recovers are exactly the well-formed ones. */
  lemma PrintSplitExactly(p: Parts)
    ensures Split(Print(p)) == Some(p) <==> WellFormed(p)
  {
    var url := Print(p);
    assert url[|p.protocol|] == ':';
    if WellFormed(p) {
      FindAfter(p.protocol, ':', PrintRest(p));
      assert url[..|p.protocol|] == p.protocol && url[|p.protocol| + 1..] == PrintRest(p);
      RestCut(p);
      if p.authority.Some? {
        assert PrintRest(p)[0] == '/';
      }
    } else if Split(url) == Some(p) {
      Reassembled(url);
    }
  }

  // ---------- what is accepted ----------

  lemma {:induction false} FindNothing(s: string, c: char)
    requires c !in s
    ensures Find(s, c) == None && FindLast(s, c) == None
  {
  }

  /** Ports are the non-empty strings of digits; host names consist of letters, digits,
      plus, minus and dot. */
  lemma HostsAndPorts(host: string, port: string)
    ensures TryPort(port) <==> port != [] && forall c :: c in port ==> '0' <= c <= '9'
    ensures CheckHostname(host) <==> forall c :: c in host ==>
      'a' <= c <= 'z' || 'A' <= c <= 'Z' || '0' <= c <= '9' || c == '+' || c == '-' || c == '.'
  {
    assert forall i :: 0 <= i < |port| ==> port[i] in port;
    assert forall i :: 0 <= i < |host| ==> host[i] in host;
  }

  /** An address in brackets passes; one with a bracket missing, or with the two the
      wrong way round, does not. */
  lemma Brackets(inner: string)
    requires '[' !in inner && ']' !in inner
    ensures CheckIP(['['] + inner + [']']) && !CheckIP([']'] + inner + ['['])
    ensures !CheckIP(['['] + inner) && !CheckIP(inner + [']'])
  {
    BracketsFound(inner, '[', ']');
    BracketsFound(inner, ']', '[');
    OneFound(inner, '[', ']');
    OneFound(inner, ']', '[');
    hide Find, FindLast;
  }

  lemma BracketsFound(inner: string, a: char, b: char)
    requires a !in inner && b !in inner && a != b
    ensures Find([a] + inner + [b], a) == Some(0) == FindLast([a] + inner + [b], a)
    ensures Find([a] + inner + [b], b) == Some(|inner| + 1) == FindLast([a] + inner + [b], b)
  {
    hide Find, FindLast;
    AroundText(inner, a, b);
    FindAfter([], a, inner + [b]);
    FindLastAfter([], a, inner + [b]);
    FindAfter([a] + inner, b, []);
    FindLastAfter([a] + inner, b, []);
  }

  lemma AroundText(inner: string, a: char, b: char)
    ensures [a] + inner + [b] == [] + [a] + (inner + [b]) == ([a] + inner) + [b] + []
  {
  }

  lemma OneFound(inner: string, a: char, b: char)
    requires a !in inner && b !in inner && a != b
    ensures Find([a] + inner, a) == Some(0) && FindLast([a] + inner, b) == None
    ensures Find(inner + [b], a) == None && FindLast(inner + [b], b) == Some(|inner|)
  {
    hide Find, FindLast;
    assert [a] + inner == [] + [a] + inner && inner + [b] == inner + [b] + [];
    FindAfter([], a, inner);
    FindNothing([a] + inner, b);
    FindNothing(inner + [b], a);
    FindLastAfter(inner, b, []);
  }

  /** A bracketed address with a port comes through. */
  lemma BracketedHost(protocol: string, inner: string, port: string, path: string)
    requires ':' !in protocol && '[' !in inner && ']' !in inner && forall c :: c in inner ==> !IsDelimiter(c)
    requires port != [] && forall c :: c in port ==> '0' <= c <= '9'
    requires '?' !in path && '#' !in path && (path == [] || path[0] == '/')
    ensures Split(protocol + [':'] + ("//" + ((['['] + inner + [']']) + ([':'] + port)) + path))
         == Some(Parts(protocol, Some(Authority(['['] + inner + [']'], Some(port))), path, None, None))
  {
    var a := Authority(['['] + inner + [']'], Some(port));
    var p := Parts(protocol, Some(a), path, None, None);
    BracketAuthority(inner, port);
    PathOnly(p);
    assert PrintAuthority(a) == a.host + ([':'] + port);
    hide AuthorityOk, PrintTail, TailOk, Split;
    assert WellFormed(p);
    PrintSplitExactly(p);
  }

  lemma BracketAuthority(inner: string, port: string)
    requires '[' !in inner && ']' !in inner && forall c :: c in inner ==> !IsDelimiter(c)
    requires port != [] && forall c :: c in port ==> '0' <= c <= '9'
    ensures AuthorityOk(Authority(['['] + inner + [']'], Some(port)))
  {
    var a := Authority(['['] + inner + [']'], Some(port));
    Brackets(inner);
    HostsAndPorts([], port);
    hide CheckIP, TryPort, CheckHostname;
    var s := PrintAuthority(a);
    assert s == ['['] + inner + [']'] + ([':'] + port);
    forall i | 0 <= i < |s|
      ensures !IsDelimiter(s[i])
    {
      assert s[i] in inner || s[i] in port || s[i] == '[' || s[i] == ']' || s[i] == ':';
    }
  }

  lemma PathOnly(p: Parts)
    requires p.query == None && p.ref == None && '?' !in p.path && '#' !in p.path
    ensures PrintTail(p) == p.path && TailOk(p)
  {
    assert p.path + [] + [] == p.path && p.path + [] == p.path;
  }

  /** A host and a port alone are taken for neither protocol nor anything else, and
      without a colon the protocol is everything, and the rest is cut from the whole. */
  lemma NoProtocol(host: string, port: string, url: string)
    requires ':' !in host && CheckHostname(host) && TryPort(port) && ':' !in url
    ensures Split(host + [':'] + port) == None && ProtocolOnly(host + [':'] + port) == []
    ensures TryPort(url) && (CheckHostname(url) || CheckIP(url)) ==> Split(url) == None && ProtocolOnly(url) == []
    ensures !(TryPort(url) && (CheckHostname(url) || CheckIP(url))) ==>
      Split(url) == CutRest(url, url) && ProtocolOnly(url) == url
  {
    hide CheckHostname, CheckIP, TryPort, CutRest;
    FindAfter(host, ':', port);
    var u := host + [':'] + port;
    assert u[..|host|] == host && u[|host| + 1..] == port;
    FindNothing(url, ':');
  }

  // ---------- the class ----------

  /** What an early return leaves: nothing, or the protocol. */
  function ProtocolOnly(url: string): string {
    var colon := Find(url, ':');
    if TryHostPort(url, colon) then [] else if colon.Some? then url[..colon.value] else url
  }

  function OrEmpty(part: Option<string>): string { if part.Some? then part.value else [] }

  class URL {
    const url: string
    var host: string
    var port: string
    var protocol: string
    var path: string
    var query: string
    var ref: string

    constructor (url: string)
      ensures match Split(url)
        case Some(p) => Shows(p)
        case None => host == port == path == query == ref == [] && protocol == ProtocolOnly(url)
    {
      this.url := url;
      host, port, protocol, path, query, ref := [], [], [], [], [], [];
      new;
      Cut();
    }

    /** The fields hold the parts; a part that is missing reads as empty. */
    ghost predicate Shows(p: Parts)
      reads this
    {
      && protocol == p.protocol && path == p.path
      && host == (if p.authority.Some? then p.authority.value.host else [])
      && port == (if p.authority.Some? then OrEmpty(p.authority.value.port) else [])
      && query == OrEmpty(p.query) && ref == OrEmpty(p.ref)
    }

    method Cut()
      requires host == port == protocol == path == query == ref == []
      modifies this
      ensures match Split(url)
        case Some(p) => Shows(p)
        case None => host == port == path == query == ref == [] && protocol == ProtocolOnly(url)
    {
      hide CutRef, CutQuery, CutPort, TryHostPort, HostEnd;
      var view := url;
      var i := Find(view, ':');
      if TryHostPort(view, i) {
        return;
      }
      protocol := if i.Some? then view[..i.value] else view;
      view := if i.Some? then view[i.value + 1..] else view;
      if "//" <= view {
        var ok, tail := CutHost(view);
        if !ok {
          return;
        }
        view := tail;
      }
      CutPath(view);
    }

    /** The host and the port between the slashes and the first delimiter. */
    method CutHost(view: string) returns (ok: bool, tail: string)
      requires "//" <= view && host == port == []
      modifies this`host, this`port
      ensures var e := HostEnd(view[2..]) + 2;
        tail == view[e..]
        && match CutPort(view[2..e])
           case None => !ok && host == port == []
           case Some(a) => ok && host == a.host && port == OrEmpty(a.port)
    {
      hide TryHostPort;
      var e := FirstDelimiter(view);
      var hostport := view[2..e];
      tail := view[e..];
      var colon := FindLast(hostport, ':');
      if colon.Some? && !TryHostPort(hostport, colon) {
        return false, tail;
      }
      host := if colon.Some? then hostport[..colon.value] else hostport;
      if colon.Some? {
        port := hostport[colon.value + 1..];
      }
      ok := true;
    }

    /** What is left after the host: reference, query and path. */
    method CutPath(tail: string)
      requires query == ref == []
      modifies this`path, this`query, this`ref
      ensures path == CutTail([], None, tail).path
      ensures query == OrEmpty(CutTail([], None, tail).query)
      ensures ref == OrEmpty(CutTail([], None, tail).ref)
    {
      var view := tail;
      var hash := FindLast(view, '#');
      if hash.Some? {
        ref := view[hash.value + 1..];
        view := view[..hash.value];
      }
      var mark := Find(view, '?');
      if mark.Some? {
        query := view[mark.value + 1..];
        view := view[..mark.value];
      }
      path := view;
    }

    /** The least of the three searches from offset 2; a search that fails counts
        as beyond the end. */
    static method FirstDelimiter(view: string) returns (e: nat)
      requires |view| >= 2
      ensures e == HostEnd(view[2..]) + 2
    {
      var s, set3 := view[2..], ['/', '?', '#'];
      var least: nat := |s|;
      for k := 0 to 3
        invariant least <= |s| && (least < |s| ==> IsDelimiter(s[least]))
        invariant forall j :: 0 <= j < k ==> set3[j] !in s[..least]
      {
        var found := Find(s, set3[k]);
        if found.Some? && found.value < least {
          assert s[..found.value] == s[..least][..found.value];
          least := found.value;
        } else if found.Some? {
          assert s[..least] == s[..found.value][..least];
        }
      }
      assert set3[0] !in s[..least] && set3[1] !in s[..least] && set3[2] !in s[..least];
      assert forall i :: 0 <= i < least ==> s[i] in s[..least];
      e := least + 2;
    }
  }
}
