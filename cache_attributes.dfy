/** The cache-entry attributes of the tile loader (`CacheEntryAttributes`) and the two
    pure computations `JCSCachedTileLoaderJob` performs on them: the freshness test
    `isCacheElementValid` and the header reader `parseHeaders`. All times are Java
    `long` milliseconds; the arithmetic wraps around as Java's does. */
module CacheAttributes {
  import opened Wrappers
  import opened Strings
  import opened JavaNumbers

  /** `DEFAULT_EXPIRE_TIME`: seven days. */
  const DefaultExpireTime: int := 7 * 24 * 3600 * 1000
  /** `EXPIRE_TIME_SERVER_LIMIT`: the cap on a server-announced expiry, 28 days. */
  const ExpireTimeServerLimit: int := 28 * 24 * 3600 * 1000
  /** `ABSOLUTE_EXPIRE_TIME_LIMIT`: 365 days. */
  const AbsoluteExpireTimeLimit: int := 365 * 24 * 3600 * 1000

  /** What `setError`/`setException` record: the kind of the exception caught. */
  datatype Failure = NotFound | Io | Interrupted

  /** The attributes stored with a cache entry. */
  datatype Attributes = Attributes(
    createTime: int,
    lastModification: int,
    expirationTime: int,
    etag: Option<string>,
    responseCode: int,
    errorMessage: Option<string>,
    error: Option<Failure>)

  /** The fields have Java's `long` and `int` ranges. */
  predicate LongFields(a: Attributes) {
    IsLong(a.createTime) && IsLong(a.lastModification) && IsLong(a.expirationTime) && IsInt(a.responseCode)
  }

  /** `new CacheEntryAttributes()` at clock reading `clock`. */
  function NewAttributes(clock: int): (a: Attributes)
    requires IsLong(clock)
    ensures LongFields(a) && a.createTime == clock
  {
    Attributes(clock, 0, 0, None, 200, None, None)
  }

  // ---------------------------------------------------------------------------
  // isCacheElementValid

  /** `isCacheElementValid()`, for the job's start time `now`. */
  function IsCacheElementValid(a: Attributes, now: int, minimumExpiryTime: int): (r: bool)
    requires LongFields(a) && IsLong(now) && IsLong(minimumExpiryTime)
    // an announced expiry is honoured up to the server limit after creation
    ensures a.expirationTime != 0 && IsLong(a.createTime + Max(ExpireTimeServerLimit, minimumExpiryTime)) ==>
      (r <==> now <= a.expirationTime && now <= a.createTime + Max(ExpireTimeServerLimit, minimumExpiryTime))
    // without one, both the age since modification and the age since creation are bounded
    ensures a.expirationTime == 0 && IsLong(now - a.lastModification) && IsLong(now - a.createTime) ==>
      (r <==> !(a.lastModification > 0 && now - a.lastModification > Max(DefaultExpireTime, minimumExpiryTime)) &&
              now - a.createTime <= Max(DefaultExpireTime, minimumExpiryTime))
  {
    var maxAge := Max(DefaultExpireTime, minimumExpiryTime);
    if a.expirationTime != 0 then
      var expires := Min(a.expirationTime, AddLong(a.createTime, Max(ExpireTimeServerLimit, minimumExpiryTime)));
      !(now > expires)
    else if a.lastModification > 0 && SubLong(now, a.lastModification) > maxAge then false
    else if SubLong(now, a.createTime) > maxAge then false
    else true
  }

  /** No announced expiry keeps an entry valid past the server limit. */
  lemma NeverValidPastCap(a: Attributes, now: int, minimumExpiryTime: int)
    requires LongFields(a) && IsLong(now) && IsLong(minimumExpiryTime)
    requires IsLong(a.createTime + Max(ExpireTimeServerLimit, minimumExpiryTime))
    requires 0 <= a.createTime && now > a.createTime + Max(ExpireTimeServerLimit, minimumExpiryTime)
    ensures !IsCacheElementValid(a, now, minimumExpiryTime)
  {
    if a.expirationTime == 0 {
      assert SubLong(now, a.createTime) == now - a.createTime;
    }
  }

  /** An entry valid at some time was valid at every earlier time since its creation
      (as long as the differences stay inside the long range). */
  lemma ValidityAntitone(a: Attributes, earlier: int, later: int, minimumExpiryTime: int)
    requires LongFields(a) && IsLong(earlier) && IsLong(later) && IsLong(minimumExpiryTime)
    requires a.createTime <= earlier <= later
    requires IsLong(a.createTime + Max(ExpireTimeServerLimit, minimumExpiryTime))
    requires IsLong(later - a.lastModification) && IsLong(earlier - a.lastModification)
    requires IsLong(later - a.createTime)
    requires IsCacheElementValid(a, later, minimumExpiryTime)
    ensures IsCacheElementValid(a, earlier, minimumExpiryTime)
  {
    assert IsLong(earlier - a.createTime);
  }

  /** A larger minimum expiry time never makes a valid entry invalid. */
  lemma ValidityMonotoneInMinimum(a: Attributes, now: int, m1: int, m2: int)
    requires LongFields(a) && IsLong(now) && IsLong(m1) && IsLong(m2) && m1 <= m2
    requires IsLong(a.createTime + Max(ExpireTimeServerLimit, m2))
    requires a.createTime >= 0
    requires IsLong(now - a.lastModification) && IsLong(now - a.createTime)
    requires IsCacheElementValid(a, now, m1)
    ensures IsCacheElementValid(a, now, m2)
  {
    assert IsLong(a.createTime + Max(ExpireTimeServerLimit, m1));
  }

  // ---------------------------------------------------------------------------
  // The HTTP response as the loader sees it

  newtype Byte = x: int | 0 <= x < 256

  /** Where a failing read or request ends up: `FileNotFoundException` or another `IOException`. */
  datatype IoFailure = FileNotFound | OtherIo

  /** The body stream of a response: its bytes, or the exception reading it throws. */
  datatype Body = Bytes(content: seq<Byte>) | ReadFails(failure: IoFailure)

  /** An `HttpClient.Response`: the status code, the `Cache-Control`, `ETag` headers,
      `getExpiration()` and `getLastModified()` (0 when absent), the body, and the
      error message the loader's detector finds in a non-200 body (if any). */
  datatype Response = Response(
    code: int,
    cacheControl: Option<string>,
    expiration: int,
    etag: Option<string>,
    lastModified: int,
    body: Body,
    errorMessage: Option<string>)

  predicate ResponseFields(r: Response) {
    IsInt(r.code) && IsLong(r.expiration) && IsLong(r.lastModified)
  }

  // ---------------------------------------------------------------------------
  // split(",", -1): every piece, empty ones included

  function SplitComma(s: string): (r: seq<string>)
    ensures |r| >= 1
    ensures forall i :: 0 <= i < |r| ==> ',' !in r[i]
  {
    if |s| == 0 then [""]
    else
      var rest := SplitComma(s[1..]);
      if s[0] == ',' then [""] + rest else [[s[0]] + rest[0]] + rest[1..]
  }

  /** The inverse of SplitComma: the pieces joined by commas. */
  function JoinComma(pieces: seq<string>): (r: string)
    requires |pieces| >= 1
    ensures pieces[0] <= r
    ensures |pieces| > 1 ==> |r| > |pieces[0]| && r[|pieces[0]|] == ','
  {
    if |pieces| == 1 then pieces[0] else pieces[0] + "," + JoinComma(pieces[1..])
  }

  /** Splitting loses nothing: joining the pieces gives the header back. */
  lemma {:induction false} JoinSplitComma(s: string)
    ensures JoinComma(SplitComma(s)) == s
  {
    if |s| > 0 {
      var rest := SplitComma(s[1..]);
      JoinSplitComma(s[1..]);
      if s[0] == ',' {
        assert s == [s[0]] + s[1..];
      } else if |rest| == 1 {
        assert s == [s[0]] + s[1..];
      } else {
        assert rest == [rest[0]] + rest[1..];
        assert JoinComma(rest) == rest[0] + "," + JoinComma(rest[1..]);
        assert s == [s[0]] + s[1..];
      }
    }
  }

  /** Splitting comma-free pieces joined by commas gives the pieces back. */
  lemma {:induction false} SplitJoinComma(pieces: seq<string>)
    requires |pieces| >= 1 && forall i :: 0 <= i < |pieces| ==> ',' !in pieces[i]
    ensures SplitComma(JoinComma(pieces)) == pieces
  {
    if |pieces| == 1 {
      SplitCommaFree(pieces[0], "");
      assert pieces[0] + "" == pieces[0];
    } else {
      SplitJoinComma(pieces[1..]);
      SplitCommaFree(pieces[0], "," + JoinComma(pieces[1..]));
      assert pieces[0] + "," + JoinComma(pieces[1..]) == pieces[0] + ("," + JoinComma(pieces[1..]));
      assert ("," + JoinComma(pieces[1..]))[1..] == JoinComma(pieces[1..]);
    }
  }

  /** A comma-free start joins the first piece of what follows it. */
  lemma {:induction false} SplitCommaFree(p: string, t: string)
    requires ',' !in p
    ensures SplitComma(p + t) ==
      (if |t| == 0 then [p]
       else if t[0] == ',' then [p] + SplitComma(t[1..])
       else [p + SplitComma(t)[0]] + SplitComma(t)[1..])
  {
    if |p| > 0 {
      SplitCommaFree(p[1..], t);
      assert (p + t)[1..] == p[1..] + t;
      assert p == [p[0]] + p[1..];
      if |t| > 0 && t[0] != ',' {
        assert [p[0]] + (p[1..] + SplitComma(t)[0]) == p + SplitComma(t)[0];
      }
    } else {
      assert p + t == t;
      if |t| > 0 && t[0] != ',' {
        var r := SplitComma(t);
        assert p + r[0] == r[0];
        assert r == [r[0]] + r[1..];
      }
    }
  }

  // ---------------------------------------------------------------------------
  // parseHeaders

  /** What one Cache-Control token contributes: for `max-age=` and `s-max-age=` with a
      value `Long.parseLong` accepts, the seconds in milliseconds (saturating) plus the
      clock; nothing for other tokens or a value that does not parse. */
  function TokenExpiry(token: string, clock: int): (r: Option<int>)
    requires IsLong(clock)
    ensures r.Some? ==> IsLong(r.value)
    ensures r.Some? ==> "max-age=" <= token || "s-max-age=" <= token
    ensures r.Some? <==>
      ("max-age=" <= token && ParseLong(token[8..]).Some?) ||
      ("s-max-age=" <= token && ParseLong(token[10..]).Some?)
    ensures "max-age=" <= token && ParseLong(token[8..]).Some? ==>
      r == Some(AddLong(SecondsToMillis(ParseLong(token[8..]).value), clock))
    ensures "s-max-age=" <= token && ParseLong(token[10..]).Some? ==>
      r == Some(AddLong(SecondsToMillis(ParseLong(token[10..]).value), clock))
  {
    if "max-age=" <= token then
      assert !("s-max-age=" <= token) by {
        assert token[0] == "max-age="[0];
      }
      DirectiveExpiry(token[|"max-age="|..], clock)
    else if "s-max-age=" <= token then DirectiveExpiry(token[|"s-max-age="|..], clock)
    else None
  }

  function DirectiveExpiry(value: string, clock: int): (r: Option<int>)
    requires IsLong(clock)
    ensures r.Some? ==> IsLong(r.value)
  {
    match ParseLong(value)
    case None => None
    case Some(seconds) => Some(AddLong(SecondsToMillis(seconds), clock))
  }

  /** What each token of the header contributes. */
  function Contributions(tokens: seq<string>, clock: int): (vs: seq<Option<int>>)
    requires IsLong(clock)
    ensures |vs| == |tokens| && AllLong(vs)
  {
    seq(|tokens|, i requires 0 <= i < |tokens| => TokenExpiry(tokens[i], clock))
  }

  predicate AllLong(vs: seq<Option<int>>) {
    forall i :: 0 <= i < |vs| && vs[i].Some? ==> IsLong(vs[i].value)
  }

  /** The running maximum the token loop keeps, starting from 0. */
  function RunningMax(vs: seq<Option<int>>): (r: int)
    ensures AllLong(vs) ==> IsLong(r)
  {
    if |vs| == 0 then 0
    else
      var e := RunningMax(vs[..|vs| - 1]);
      match vs[|vs| - 1]
      case None => e
      case Some(v) => Max(e, v)
  }

  /** The loop's result is the largest contribution, or 0 when none is positive:
      tokens that contribute nothing are skipped. */
  lemma {:induction false} RunningMaxIsMaximum(vs: seq<Option<int>>)
    ensures RunningMax(vs) >= 0
    ensures forall i :: 0 <= i < |vs| && vs[i].Some? ==> vs[i].value <= RunningMax(vs)
    ensures RunningMax(vs) == 0 || exists i :: 0 <= i < |vs| && vs[i] == Some(RunningMax(vs))
  {
    if |vs| > 0 {
      var last := |vs| - 1;
      var init := vs[..last];
      RunningMaxIsMaximum(init);
      var e := RunningMax(init);
      var r := RunningMax(vs);
      forall i | 0 <= i < |vs| && vs[i].Some?
        ensures vs[i].value <= r
      {
        if i < last {
          assert vs[i] == init[i];
        }
      }
      if r != 0 && r == e {
        var j :| 0 <= j < |init| && init[j] == Some(e);
        assert vs[j] == init[j];
      }
    }
  }

  /** The Cache-Control header's expiration is the largest `max-age=`/`s-max-age=` value
      (in milliseconds, plus the clock), or 0 when no token yields a positive one. */
  lemma DirectiveExpirationIsMaximum(tokens: seq<string>, clock: int)
    requires IsLong(clock)
    ensures var r := RunningMax(Contributions(tokens, clock));
      r >= 0 &&
      (forall i :: 0 <= i < |tokens| && TokenExpiry(tokens[i], clock).Some? ==> TokenExpiry(tokens[i], clock).value <= r) &&
      (r == 0 || exists i :: 0 <= i < |tokens| && TokenExpiry(tokens[i], clock) == Some(r))
  {
    var vs := Contributions(tokens, clock);
    RunningMaxIsMaximum(vs);
    assert forall i :: 0 <= i < |tokens| ==> vs[i] == TokenExpiry(tokens[i], clock);
  }

  /** The expiration `parseHeaders` settles on before the minimum is applied. */
  function HeaderExpiration(resp: Response, clock: int): (r: int)
    requires ResponseFields(resp) && IsLong(clock)
    ensures IsLong(r)
    ensures resp.cacheControl.Some? && RunningMax(Contributions(SplitComma(resp.cacheControl.value), clock)) != 0 ==>
      r == RunningMax(Contributions(SplitComma(resp.cacheControl.value), clock))
  {
    var fromDirectives := if resp.cacheControl.Some? then RunningMax(Contributions(SplitComma(resp.cacheControl.value), clock)) else 0;
    var e := if fromDirectives == 0 then resp.expiration else fromDirectives;
    if e == 0 then AddLong(clock, DefaultExpireTime) else e
  }

  /** `parseHeaders(urlConn)` for a job started at `now`, all clock readings being `clock`. */
  function HeaderAttributes(resp: Response, now: int, minimumExpiryTime: int, clock: int): (a: Attributes)
    requires ResponseFields(resp) && IsLong(now) && IsLong(minimumExpiryTime) && IsLong(clock)
    ensures LongFields(a)
    ensures a.expirationTime >= AddLong(minimumExpiryTime, clock)
    ensures a.expirationTime >= HeaderExpiration(resp, clock)
    ensures a.expirationTime == AddLong(minimumExpiryTime, clock) || a.expirationTime == HeaderExpiration(resp, clock)
    ensures a.lastModification == now && a.etag == resp.etag && a.createTime == clock
    ensures a.responseCode == 200 && a.errorMessage.None? && a.error.None?
  {
    NewAttributes(clock).(
      expirationTime := Max(AddLong(minimumExpiryTime, clock), HeaderExpiration(resp, clock)),
      lastModification := now,
      etag := resp.etag)
  }

  /** `parseHeaders`: the token loop over the Cache-Control header, then the fallbacks. */
  method ParseHeaders(resp: Response, now: int, minimumExpiryTime: int, clock: int) returns (a: Attributes)
    requires ResponseFields(resp) && IsLong(now) && IsLong(minimumExpiryTime) && IsLong(clock)
    ensures a == HeaderAttributes(resp, now, minimumExpiryTime, clock)
  {
    var expiration := 0;
    if resp.cacheControl.Some? {
      var tokens := SplitComma(resp.cacheControl.value);
      var i := 0;
      while i < |tokens|
        invariant 0 <= i <= |tokens|
        invariant expiration == RunningMax(Contributions(tokens, clock)[..i])
      {
        var token := tokens[i];
        ghost var vs := Contributions(tokens, clock);
        assert vs[..i + 1][..i] == vs[..i] && vs[..i + 1][i] == TokenExpiry(token, clock);
        assert "max-age=" <= token ==> token[0] == 'm';
        assert "s-max-age=" <= token ==> token[0] == 's';
        if "max-age=" <= token {
          var seconds := ParseLong(token[|"max-age="|..]);
          if seconds.Some? {
            expiration := Max(expiration, AddLong(SecondsToMillis(seconds.value), clock));
          }
        }
        if "s-max-age=" <= token {
          var seconds := ParseLong(token[|"s-max-age="|..]);
          if seconds.Some? {
            expiration := Max(expiration, AddLong(SecondsToMillis(seconds.value), clock));
          }
        }
        i := i + 1;
      }
      assert Contributions(tokens, clock)[..|tokens|] == Contributions(tokens, clock);
    }
    if expiration == 0 {
      expiration := resp.expiration;
    }
    if expiration == 0 {
      expiration := AddLong(clock, DefaultExpireTime);
    }
    a := NewAttributes(clock);
    a := a.(expirationTime := Max(AddLong(minimumExpiryTime, clock), expiration));
    a := a.(lastModification := now);
    a := a.(etag := resp.etag);
  }

  /** Without a usable directive the Expires header decides, and without that the default. */
  lemma ExpirationFallbacks(resp: Response, clock: int)
    requires ResponseFields(resp) && IsLong(clock)
    requires resp.cacheControl.None? || RunningMax(Contributions(SplitComma(resp.cacheControl.value), clock)) == 0
    ensures resp.expiration != 0 ==> HeaderExpiration(resp, clock) == resp.expiration
    ensures resp.expiration == 0 ==> HeaderExpiration(resp, clock) == AddLong(clock, DefaultExpireTime)
  {
  }

  /** A lone `max-age=n` header expires n seconds after the clock (no overflow assumed). */
  lemma MaxAgeHeader(resp: Response, n: nat, clock: int)
    requires ResponseFields(resp) && IsLong(clock) && clock > 0
    requires n * 1000 + clock <= LongMax
    requires resp.cacheControl == Some("max-age=" + Digits(n))
    ensures HeaderExpiration(resp, clock) == n * 1000 + clock
  {
    var token := "max-age=" + Digits(n);
    assert ',' !in token by {
      assert forall k :: 0 <= k < |token| ==> token[k] != ',' by {
        forall k | 0 <= k < |token|
          ensures token[k] != ','
        {
          if k >= 8 {
            assert token[k] == Digits(n)[k - 8];
            assert IsDigit(Digits(n)[k - 8]);
          }
        }
      }
    }
    SplitCommaFree(token, "");
    assert token + "" == token;
    assert token[|"max-age="|..] == Digits(n);
    ParseLongOfDigits(n);
    assert SecondsToMillis(n) == n * 1000;
    assert TokenExpiry(token, clock) == Some(n * 1000 + clock);
    assert SplitComma(token) == [token];
    var vs := Contributions([token], clock);
    assert vs[0] == Some(n * 1000 + clock);
    assert vs[..0] == [];
    assert RunningMax(vs[..0]) == 0;
    assert RunningMax(vs) == n * 1000 + clock;
  }
}
