/** Signed subject headers (transport/headers/headers.go): a '|'-joined canonical string is signed,
    and the receiver rebuilds it from the headers.  The HMAC is an arbitrary keyed function. */
module Headers {

  import opened Options
  import opened Sorting

  // ---- strings.Join and strings.Split with a one-character separator ----

  function Join(parts: seq<string>, sep: char): string {
    if parts == [] then ""
    else if |parts| == 1 then parts[0]
    else parts[0] + [sep] + Join(parts[1..], sep)
  }

  /** The text up to the first separator and, if there is one, the text after it. */
  function Cut(s: string, sep: char): (r: (string, Option<string>))
    ensures r.1.Some? ==> |r.1.value| < |s|
  {
    if s == "" then ("", None)
    else if s[0] == sep then ("", Some(s[1..]))
    else
      var (head, rest) := Cut(s[1..], sep);
      ([s[0]] + head, rest)
  }

  function Split(s: string, sep: char): seq<string>
    decreases |s|
  {
    var (head, rest) := Cut(s, sep);
    if rest.None? then [head] else [head] + Split(rest.value, sep)
  }

  predicate Free(s: string, sep: char) {
    sep !in s
  }

  predicate AllFree(parts: seq<string>, sep: char) {
    forall i :: 0 <= i < |parts| ==> Free(parts[i], sep)
  }

  lemma {:induction false} CutFree(s: string, sep: char)
    requires Free(s, sep)
    ensures Cut(s, sep) == (s, None)
  {
    if s != "" {
      CutFree(s[1..], sep);
      assert [s[0]] + s[1..] == s;
    }
  }

  lemma {:induction false} CutJoined(s: string, rest: string, sep: char)
    requires Free(s, sep)
    ensures Cut(s + [sep] + rest, sep) == (s, Some(rest))
  {
    var all := s + [sep] + rest;
    if s == "" {
      assert all[1..] == rest;
    } else {
      assert all[1..] == s[1..] + [sep] + rest;
      CutJoined(s[1..], rest, sep);
      assert [s[0]] + s[1..] == s;
    }
  }

  lemma {:induction false} SplitJoin(parts: seq<string>, sep: char)
    requires parts != [] && AllFree(parts, sep)
    ensures Split(Join(parts, sep), sep) == parts
  {
    hide Cut;
    if |parts| == 1 {
      CutFree(parts[0], sep);
    } else {
      CutJoined(parts[0], Join(parts[1..], sep), sep);
      assert AllFree(parts[1..], sep);
      SplitJoin(parts[1..], sep);
    }
  }

  // ---- counting separators ----

  function Count(s: string, c: char): nat {
    if s == "" then 0 else (if s[0] == c then 1 else 0) + Count(s[1..], c)
  }

  lemma {:induction false} CountConcat(a: string, b: string, c: char)
    ensures Count(a + b, c) == Count(a, c) + Count(b, c)
  {
    if a == "" {
      assert a + b == b;
    } else {
      assert (a + b)[1..] == a[1..] + b;
      CountConcat(a[1..], b, c);
    }
  }

  lemma {:induction false} CountZeroIffFree(s: string, c: char)
    ensures Count(s, c) == 0 <==> Free(s, c)
  {
    if s != "" {
      CountZeroIffFree(s[1..], c);
      assert s == [s[0]] + s[1..];
    }
  }

  function TotalCount(parts: seq<string>, c: char): nat {
    if parts == [] then 0 else Count(parts[0], c) + TotalCount(parts[1..], c)
  }

  lemma {:induction false} CountJoin(parts: seq<string>, sep: char)
    requires parts != []
    ensures Count(Join(parts, sep), sep) == TotalCount(parts, sep) + |parts| - 1
  {
    if |parts| > 1 {
      CountJoin(parts[1..], sep);
      CountConcat(parts[0] + [sep], Join(parts[1..], sep), sep);
      CountConcat(parts[0], [sep], sep);
    }
  }

  lemma {:induction false} TotalZeroIffFree(parts: seq<string>, sep: char)
    ensures TotalCount(parts, sep) == 0 <==> AllFree(parts, sep)
  {
    if parts != [] {
      CountZeroIffFree(parts[0], sep);
      TotalZeroIffFree(parts[1..], sep);
      assert AllFree(parts, sep) <==> Free(parts[0], sep) && AllFree(parts[1..], sep) by {
        assert forall i :: 0 < i < |parts| ==> parts[i] == parts[1..][i - 1];
      }
    }
  }

  /** A joined list without separators in its parts can only be produced by itself among all lists of
      the same length, even those whose parts do contain separators. */
  lemma JoinInjective(a: seq<string>, b: seq<string>, sep: char)
    requires |a| == |b| && a != [] && AllFree(a, sep)
    requires Join(a, sep) == Join(b, sep)
    ensures a == b
  {
    hide Join, Split, TotalCount, Count;
    CountJoin(a, sep);
    CountJoin(b, sep);
    TotalZeroIffFree(a, sep);
    TotalZeroIffFree(b, sep);
    SplitJoin(a, sep);
    SplitJoin(b, sep);
  }

  // ---- decimal numbers ----

  const MaxInt64 := 0x7fff_ffff_ffff_ffff

  predicate Int64(n: int) {
    -MaxInt64 - 1 <= n <= MaxInt64
  }

  function Digit(d: int): char
    requires 0 <= d < 10
  {
    '0' + (d as char)
  }

  predicate IsDigit(c: char) {
    '0' <= c <= '9'
  }

  function FormatNat(n: nat): (s: string)
    ensures s != "" && forall i :: 0 <= i < |s| ==> IsDigit(s[i])
  {
    if n < 10 then [Digit(n)] else FormatNat(n / 10) + [Digit(n % 10)]
  }

  function FormatInt(n: int): string {
    if n < 0 then "-" + FormatNat(-n) else FormatNat(n)
  }

  function ParseNat(s: string): Option<nat> {
    if s == "" then None
    else
      var last := s[|s| - 1];
      if !IsDigit(last) then None
      else
        var d := (last - '0') as nat;
        if |s| == 1 then Some(d)
        else
          match ParseNat(s[..|s| - 1])
          case None => None
          case Some(n) => Some(10 * n + d)
  }

  /** strconv.ParseInt(s, 10, 64): an optional sign, digits, and the value must fit. */
  function ParseInt(s: string): Option<int> {
    if s == "" then None
    else
      var body := if s[0] == '-' || s[0] == '+' then s[1..] else s;
      match ParseNat(body)
      case None => None
      case Some(n) =>
        var v: int := if s[0] == '-' then -(n as int) else n;
        if Int64(v) then Some(v) else None
  }

  lemma {:induction false} ParseFormatNat(n: nat)
    ensures ParseNat(FormatNat(n)) == Some(n)
  {
    if n >= 10 {
      ParseFormatNat(n / 10);
      var s := FormatNat(n);
      assert s[..|s| - 1] == FormatNat(n / 10);
    }
  }

  lemma ParseFormatInt(n: int)
    requires Int64(n)
    ensures ParseInt(FormatInt(n)) == Some(n)
  {
    if n < 0 {
      ParseFormatNat(-n);
      assert FormatInt(n)[1..] == FormatNat(-n);
    } else {
      ParseFormatNat(n);
      assert IsDigit(FormatNat(n)[0]);
    }
  }

  lemma FormatIntFree(n: int)
    ensures Free(FormatInt(n), '|')
  {
  }

  // ---- roles ----

  function JoinRoles(roles: seq<string>): string {
    if roles == [] then "" else Join(Sort(roles), ',')
  }

  function SplitRoles(joined: string): seq<string> {
    if joined == "" then [] else Split(joined, ',')
  }

  lemma SortedRolesFree(roles: seq<string>, c: char)
    requires AllFree(roles, c)
    ensures AllFree(Sort(roles), c)
  {
    var s := Sort(roles);
    forall i | 0 <= i < |s| ensures Free(s[i], c) {
      SortKeepsMembers(roles, s[i]);
    }
  }

  lemma {:induction false} JoinFree(parts: seq<string>, sep: char, c: char)
    requires AllFree(parts, c) && sep != c
    ensures Free(Join(parts, sep), c)
  {
    if |parts| > 1 {
      assert AllFree(parts[1..], c);
      JoinFree(parts[1..], sep, c);
    }
  }

  /** Roles without commas come back as their sorted permutation, with one exception: the list holding
      only the empty role is written like no roles at all. */
  lemma RolesRoundTripIff(roles: seq<string>)
    requires AllFree(roles, ',')
    ensures SplitRoles(JoinRoles(roles)) == Sort(roles) <==> roles != [""]
    ensures Sorted(Sort(roles)) && multiset(Sort(roles)) == multiset(roles)
  {
    SortSorts(roles);
    SortLength(roles);
    if roles == [""] {
      assert Sort(roles) == [""];
    } else if roles != [] {
      SortedRolesFree(roles, ',');
      SplitJoin(Sort(roles), ',');
      JoinedRolesNonEmpty(Sort(roles), roles);
    }
  }

  lemma JoinedRolesNonEmpty(sorted: seq<string>, roles: seq<string>)
    requires sorted == Sort(roles) && roles != [] && roles != [""]
    ensures Join(sorted, ',') != ""
  {
    SortLength(roles);
    if |roles| == 1 {
      SortKeepsMembers(roles, roles[0]);
      assert sorted == [roles[0]];
    }
  }

  // ---- signing and verifying ----

  type Key = string

  /** The HMAC and its hexadecimal text form. */
  datatype Crypto = Crypto(mac: (Key, string) -> string, encode: string -> string, decode: string -> Option<string>)

  ghost predicate Lawful(c: Crypto) {
    forall raw: string :: c.encode(raw) != "" && c.decode(c.encode(raw)) == Some(raw)
  }

  datatype Settings = Settings(secret: Key, additional: seq<Key>, maxAge: int)

  datatype User = User(id: string, email: string, roles: seq<string>, org: string)

  /** Header values; a missing header reads as the empty string. */
  datatype Header = Header(id: string, email: string, roles: string, org: string, issuedAt: string, sig: string)

  const Second := 1_000_000_000
  const DefaultMaxAge := 60 * Second

  function Canonical(id: string, email: string, roles: string, org: string, issuedAt: int): string {
    Join([id, email, roles, org, FormatInt(issuedAt)], '|')
  }

  predicate Signable(blank: string -> bool, u: User, cfg: Settings) {
    && cfg.secret != "" && !blank(u.id)
    && Free(u.id, '|') && Free(u.email, '|') && Free(u.org, '|')
    && AllFree(u.roles, '|') && AllFree(u.roles, ',')
  }

  function Signed(c: Crypto, u: User, cfg: Settings, issued: int): Header {
    var roles := JoinRoles(u.roles);
    Header(u.id, u.email, roles, u.org, FormatInt(issued),
           c.encode(c.mac(cfg.secret, Canonical(u.id, u.email, roles, u.org, issued))))
  }

  predicate Matches(c: Crypto, key: Key, canonical: string, sig: string) {
    key != "" && c.decode(sig) == Some(c.mac(key, canonical))
  }

  datatype VerifyError = NotSigned | BadIssuedAt | OutsideWindow | EmptySubject | BadSignature

  datatype Verified = Ok(user: User) | Err(error: VerifyError)

  predicate InWindow(cfg: Settings, issuedAt: int, now: int) {
    var age := now - issuedAt * Second;
    -10 * Second <= age <= (if cfg.maxAge == 0 then DefaultMaxAge else cfg.maxAge)
  }

  /** When and what Verify accepts. */
  ghost predicate Accepts(c: Crypto, blank: string -> bool, h: Header, cfg: Settings, now: int, issuedAt: int) {
    && h.sig != "" && ParseInt(h.issuedAt) == Some(issuedAt)
    && InWindow(cfg, issuedAt, now) && !blank(h.id)
    && exists k :: (k == cfg.secret || k in cfg.additional) &&
         Matches(c, k, Canonical(h.id, h.email, h.roles, h.org, issuedAt), h.sig)
  }

  /** The signed text: the five fields with bars between them. */
  lemma CanonicalText(id: string, email: string, roles: string, org: string, issuedAt: int)
    ensures Canonical(id, email, roles, org, issuedAt) ==
            id + "|" + email + "|" + roles + "|" + org + "|" + FormatInt(issuedAt)
  {
    var time := FormatInt(issuedAt);
    var four, three, two := [email, roles, org, time], [roles, org, time], [org, time];
    hide FormatInt;
    assert [id, email, roles, org, time][1..] == four && four[1..] == three && three[1..] == two && two[1..] == [time];
    assert Join(two, '|') == org + "|" + time;
    assert Join(three, '|') == roles + "|" + (org + "|" + time);
    assert Join(four, '|') == email + "|" + (roles + "|" + (org + "|" + time));
    hide Join;
    assert id + "|" + (email + "|" + (roles + "|" + (org + "|" + time))) == id + "|" + email + "|" + roles + "|" + org + "|" + time;
  }

  /** A key that is not empty and is the secret or an additional one gives the headers their signature. */
  ghost predicate SomeKeySigned(c: Crypto, h: Header, cfg: Settings, text: string) {
    exists k :: k != "" && (k == cfg.secret || k in cfg.additional) && c.decode(h.sig) == Some(c.mac(k, text))
  }

  /** Acceptance, written out: the headers are signed and name a subject, they were issued at most 10 seconds ahead of
      the clock and at most maxAge nanoseconds behind it, 60 seconds if that is not set, and some key that is not empty
      signs the fields they carry. */
  lemma AcceptsIff(c: Crypto, blank: string -> bool, h: Header, cfg: Settings, now: int, issuedAt: int)
    ensures Accepts(c, blank, h, cfg, now, issuedAt) <==>
            && h.sig != "" && !blank(h.id) && ParseInt(h.issuedAt) == Some(issuedAt)
            && issuedAt * 1_000_000_000 - 10_000_000_000 <= now
            && now <= issuedAt * 1_000_000_000 + (if cfg.maxAge == 0 then 60_000_000_000 else cfg.maxAge)
            && SomeKeySigned(c, h, cfg, h.id + "|" + h.email + "|" + h.roles + "|" + h.org + "|" + FormatInt(issuedAt))
  {
    CanonicalText(h.id, h.email, h.roles, h.org, issuedAt);
    hide Canonical, FormatInt, ParseInt;
    var text := Canonical(h.id, h.email, h.roles, h.org, issuedAt);
    assert forall k :: Matches(c, k, text, h.sig) <==> k != "" && c.decode(h.sig) == Some(c.mac(k, text));
    assert SomeKeySigned(c, h, cfg, text) <==> exists k :: (k == cfg.secret || k in cfg.additional) && Matches(c, k, text, h.sig);
  }

  /** Without a key nothing is accepted. */
  lemma NoKeyAcceptsNothing(c: Crypto, blank: string -> bool, h: Header, cfg: Settings, now: int, issuedAt: int)
    requires cfg.secret == "" && forall k :: k in cfg.additional ==> k == ""
    ensures !Accepts(c, blank, h, cfg, now, issuedAt)
  {
  }

  function UserOf(h: Header): User {
    User(h.id, h.email, SplitRoles(h.roles), h.org)
  }

  method ContainsAny(fields: seq<string>, c: char) returns (found: bool)
    ensures !found <==> AllFree(fields, c)
  {
    for i := 0 to |fields|
      invariant forall k :: 0 <= k < i ==> Free(fields[k], c)
    {
      if c in fields[i] {
        return true;
      }
    }
    return false;
  }

  /** Refuses, without signing, a missing secret, a blank id and any separator in a field or role. */
  method Sign(c: Crypto, blank: string -> bool, u: User, cfg: Settings, now: int) returns (h: Option<Header>)
    ensures h.Some? <==> Signable(blank, u, cfg)
    ensures h.Some? ==> h.value == Signed(c, u, cfg, now)
  {
    if cfg.secret == "" || blank(u.id) {
      return None;
    }
    var inFields := ContainsAny([u.id, u.email, u.org], '|');
    var inRoles := ContainsAny(u.roles, '|');
    var commas := ContainsAny(u.roles, ',');
    assert !inFields <==> Free(u.id, '|') && Free(u.email, '|') && Free(u.org, '|') by {
      var fs := [u.id, u.email, u.org];
      assert fs[0] == u.id && fs[1] == u.email && fs[2] == u.org;
    }
    if inFields || inRoles || commas {
      return None;
    }
    var roles := JoinRoles(u.roles);
    var sig := c.encode(c.mac(cfg.secret, Canonical(u.id, u.email, roles, u.org, now)));
    return Some(Header(u.id, u.email, roles, u.org, FormatInt(now), sig));
  }

  method Verify(c: Crypto, blank: string -> bool, h: Header, cfg: Settings, now: int) returns (r: Verified)
    ensures r.Ok? <==> ParseInt(h.issuedAt).Some? && Accepts(c, blank, h, cfg, now, ParseInt(h.issuedAt).value)
    ensures r.Ok? ==> r.user == UserOf(h)
    ensures r.Ok? ==>
              var issuedAt := ParseInt(h.issuedAt).value;
              && issuedAt * 1_000_000_000 - 10_000_000_000 <= now
              && now <= issuedAt * 1_000_000_000 + (if cfg.maxAge == 0 then 60_000_000_000 else cfg.maxAge)
    ensures cfg.secret == "" && (forall k :: k in cfg.additional ==> k == "") ==> r.Err?
    ensures r == Err(NotSigned) <==> h.sig == ""
    ensures r == Err(BadIssuedAt) <==> h.sig != "" && ParseInt(h.issuedAt).None?
    ensures r == Err(OutsideWindow) <==>
              h.sig != "" && ParseInt(h.issuedAt).Some? && !InWindow(cfg, ParseInt(h.issuedAt).value, now)
    ensures r == Err(EmptySubject) <==>
              h.sig != "" && ParseInt(h.issuedAt).Some? && InWindow(cfg, ParseInt(h.issuedAt).value, now) && blank(h.id)
  {
    if h.sig == "" {
      return Err(NotSigned);
    }
    var issued := ParseInt(h.issuedAt);
    if issued.None? {
      return Err(BadIssuedAt);
    }
    var maxAge := if cfg.maxAge == 0 then DefaultMaxAge else cfg.maxAge;
    var age := now - issued.value * Second;
    if age < -10 * Second || age > maxAge {
      return Err(OutsideWindow);
    }
    if blank(h.id) {
      return Err(EmptySubject);
    }
    var canonical := Canonical(h.id, h.email, h.roles, h.org, issued.value);
    if !Matches(c, cfg.secret, canonical, h.sig) {
      for i := 0 to |cfg.additional|
        invariant forall k :: 0 <= k < i ==> !Matches(c, cfg.additional[k], canonical, h.sig)
      {
        if Matches(c, cfg.additional[i], canonical, h.sig) {
          return Ok(UserOf(h));
        }
      }
      return Err(BadSignature);
    }
    return Ok(UserOf(h));
  }

  // ---- what the scheme guarantees ----

  /** No field shifting: headers whose canonical string is that of a user Sign accepted have the same
      five fields, although Verify never looks for separators. */
  lemma CanonicalInjective(blank: string -> bool, u: User, cfg: Settings, issued: int, h: Header, issuedAt: int)
    requires Signable(blank, u, cfg) && Int64(issued) && Int64(issuedAt)
    requires Canonical(h.id, h.email, h.roles, h.org, issuedAt) == Canonical(u.id, u.email, JoinRoles(u.roles), u.org, issued)
    ensures h.id == u.id && h.email == u.email && h.roles == JoinRoles(u.roles) && h.org == u.org && issuedAt == issued
  {
    var roles := JoinRoles(u.roles);
    SignedRolesFree(u.roles);
    FormatIntFree(issued);
    var a := [u.id, u.email, roles, u.org, FormatInt(issued)];
    var b := [h.id, h.email, h.roles, h.org, FormatInt(issuedAt)];
    hide Join, JoinRoles, FormatInt;
    JoinInjective(a, b, '|');
    assert a[0] == b[0] && a[1] == b[1] && a[2] == b[2] && a[3] == b[3] && a[4] == b[4];
    ParseFormatInt(issued);
    ParseFormatInt(issuedAt);
  }

  lemma SignedRolesFree(roles: seq<string>)
    requires AllFree(roles, '|')
    ensures Free(JoinRoles(roles), '|')
  {
    if roles != [] {
      SortedRolesFree(roles, '|');
      JoinFree(Sort(roles), ',', '|');
    }
  }

  /** Within the validity window a signed user is accepted, with the same id, email and organisation,
      and with the same roles up to order unless the only role is the empty one. */
  lemma VerifyOfSign(c: Crypto, blank: string -> bool, u: User, cfg: Settings, issued: int, now: int)
    requires Lawful(c) && Signable(blank, u, cfg) && Int64(issued) && InWindow(cfg, issued, now)
    ensures
      var h := Signed(c, u, cfg, issued);
      && Accepts(c, blank, h, cfg, now, issued)
      && UserOf(h).id == u.id && UserOf(h).email == u.email && UserOf(h).org == u.org
      && (multiset(UserOf(h).roles) == multiset(u.roles) <==> u.roles != [""])
      && (u.roles != [""] ==> Sorted(UserOf(h).roles))
  {
    ParseFormatInt(issued);
    RolesRoundTripIff(u.roles);
    var h := Signed(c, u, cfg, issued);
    assert Matches(c, cfg.secret, Canonical(h.id, h.email, h.roles, h.org, issued), h.sig);
    if u.roles == [""] {
      LoneEmptyRole();
      assert "" in multiset([""]);
    }
  }

  lemma LoneEmptyRole()
    ensures SplitRoles(JoinRoles([""])) == []
  {
    assert Sort([""]) == [""];
  }

  predicate KeyOf(cfg: Settings, k: Key) {
    k == cfg.secret || k in cfg.additional
  }

  lemma ParsedFits(s: string, n: int)
    requires ParseInt(s) == Some(n)
    ensures Int64(n)
  {
  }

  /** Tamper evidence: if no key the receiver accepts gives another text the code that the signer's key gave the
      signed one, then headers that Verify accepts with the signature of a signed user carry exactly that user's
      fields and issue time, whichever of the receiver's keys matched. */
  lemma TamperEvident(c: Crypto, blank: string -> bool, u: User, signer: Settings, issued: int, h: Header, cfg: Settings, now: int, issuedAt: int)
    requires Lawful(c) && Signable(blank, u, signer) && Int64(issued)
    requires forall k, x, y :: KeyOf(cfg, k) && c.mac(k, x) == c.mac(signer.secret, y) ==> x == y
    requires h.sig == Signed(c, u, signer, issued).sig && Accepts(c, blank, h, cfg, now, issuedAt)
    ensures UserOf(h) == UserOf(Signed(c, u, signer, issued)) && issuedAt == issued
  {
    var s := Signed(c, u, signer, issued);
    var signed, canonical := Canonical(s.id, s.email, s.roles, s.org, issued), Canonical(h.id, h.email, h.roles, h.org, issuedAt);
    assert c.decode(h.sig) == Some(c.mac(signer.secret, signed));
    ParsedFits(h.issuedAt, issuedAt);
    hide Canonical, JoinRoles, ParseInt;
    var k :| (k == cfg.secret || k in cfg.additional) && Matches(c, k, canonical, h.sig);
    assert KeyOf(cfg, k) && c.mac(k, canonical) == c.mac(signer.secret, signed);
    CanonicalInjective(blank, u, signer, issued, h, issuedAt);
  }
}
