/** `API_BASE_URL` and `normalizeBackendUrl` of frontend/src/lib/api/utils.ts:
    turning the backend's file URLs into URLs the browser can load. */
module BackendUrl {
  import opened Options
  import opened Text

  const DEFAULT_API_BASE_URL := "http://localhost:8000"
  const LOCAL_HTTP := "http://localhost:8000"
  const LOCAL_HTTPS := "https://localhost:8000"

  /** `process.env.NEXT_PUBLIC_API_BASE_URL || 'http://localhost:8000'`. */
  function ApiBaseUrl(env: Option<string>): (base: string)
    ensures base != []
    ensures env.Some? && env.value != [] ==> base == env.value
  {
    if env.Some? && env.value != [] then env.value else DEFAULT_API_BASE_URL
  }

  predicate AllSlashes(s: string) {
    forall i :: 0 <= i < |s| ==> s[i] == '/'
  }

  /** `parts.filter(Boolean).length`. */
  function CountNonEmpty(parts: seq<string>): nat {
    if parts == [] then 0 else (if parts[0] != [] then 1 else 0) + CountNonEmpty(parts[1..])
  }

  lemma {:induction false} SplitAllEmpty(s: string, d: char)
    ensures CountNonEmpty(Split(s, d)) == 0 <==> forall i :: 0 <= i < |s| ==> s[i] == d
    decreases |s|
  {
    var i := IndexOf(s, d);
    if i < |s| {
      var rest := s[i + 1..];
      SplitAllEmpty(rest, d);
      assert Split(s, d) == [s[..i]] + Split(rest, d);
      assert ([s[..i]] + Split(rest, d))[1..] == Split(rest, d);
      if forall k :: 0 <= k < |s| ==> s[k] == d {
        assert i == 0;
        forall k | 0 <= k < |rest| ensures rest[k] == d {
          assert rest[k] == s[i + 1 + k];
        }
      }
      if CountNonEmpty(Split(s, d)) == 0 {
        assert s[..i] == [];
        forall k | 0 <= k < |s| ensures s[k] == d {
          if k > i {
            assert s[k] == rest[k - i - 1];
          }
        }
      }
    } else if s != [] {
      assert s[0] != d;
    }
  }

  /** The "root path only" test: `t === '/'`, or `t` ends with a slash and
      splitting it at slashes leaves no non-empty part. */
  predicate RootOnly(t: string) {
    t == "/" || (EndsWith(t, "/") && CountNonEmpty(Split(t, '/')) == 0)
  }

  /** The test singles out exactly the non-empty strings made of slashes. */
  lemma RootOnlyIffSlashes(t: string)
    requires t != []
    ensures RootOnly(t) <==> AllSlashes(t)
  {
    SplitAllEmpty(t, '/');
    if AllSlashes(t) {
      assert t[|t| - 1..] == "/";
    }
  }

  /** The steps after trimming, on a non-empty trimmed URL. */
  function NormalizeTrimmed(base: string, t: string): (r: Option<string>)
    ensures base != [] && t != [] && r.Some? ==> r.value != []
  {
    if RootOnly(t) then None
    else if StartsWith(t, LOCAL_HTTP) then Some(base + t[|LOCAL_HTTP|..])
    else if StartsWith(t, LOCAL_HTTPS) then Some(base + t[|LOCAL_HTTPS|..])
    else if StartsWith(t, base) then Some(t)
    else if StartsWith(t, "/") then Some(base + t)
    else Some(t)
  }

  /** `normalizeBackendUrl(url)` with `API_BASE_URL` as `base`. */
  function NormalizeBackendUrl(base: string, url: Option<string>): (r: Option<string>)
    ensures base != [] && r.Some? ==> r.value != []
  {
    if url.None? || Trim(url.value) == [] then None else NormalizeTrimmed(base, Trim(url.value))
  }

  /** On a non-empty trimmed URL only the root-path test answers `null`. */
  lemma TrimmedNullIff(base: string, t: string)
    requires t != []
    ensures NormalizeTrimmed(base, t).None? <==> AllSlashes(t)
  {
    RootOnlyIffSlashes(t);
  }

  /** The result is `null` exactly for a missing or blank URL and for one that is
      only slashes once trimmed. */
  lemma NormalizeNullIff(base: string, url: Option<string>)
    ensures NormalizeBackendUrl(base, url).None?
        <==> url.None? || AllSpace(url.value) || AllSlashes(Trim(url.value))
  {
    if url.Some? {
      var t := Trim(url.value);
      TrimEmptyIffAllSpace(url.value);
      if t != [] {
        TrimmedNullIff(base, t);
      }
    }
  }

  /** A base URL for which normalising twice is normalising once: it is trimmed,
      not only slashes, and neither extends nor is extended by a local address
      unless it is one. */
  predicate WellFormedBase(base: string) {
    base != [] && !IsSpace(base[0]) && !IsSpace(base[|base| - 1]) && !AllSlashes(base) &&
    (base == LOCAL_HTTP || (!StartsWith(base, LOCAL_HTTP) && !StartsWith(LOCAL_HTTP, base))) &&
    (base == LOCAL_HTTPS || (!StartsWith(base, LOCAL_HTTPS) && !StartsWith(LOCAL_HTTPS, base)))
  }

  lemma DefaultBaseWellFormed()
    ensures WellFormedBase(DEFAULT_API_BASE_URL)
  {
    assert DEFAULT_API_BASE_URL[0] == 'h';
    assert !StartsWith(LOCAL_HTTPS, DEFAULT_API_BASE_URL) by {
      assert LOCAL_HTTPS[4] != DEFAULT_API_BASE_URL[4];
    }
    assert !StartsWith(DEFAULT_API_BASE_URL, LOCAL_HTTPS);
  }

  lemma TrimFixed(s: string)
    requires s != [] && !IsSpace(s[0]) && !IsSpace(s[|s| - 1])
    ensures Trim(s) == s
  {
  }

  /** No string begins with both local addresses. */
  lemma LocalPrefixesExclusive(s: string)
    ensures !(StartsWith(s, LOCAL_HTTP) && StartsWith(s, LOCAL_HTTPS))
  {
    if StartsWith(s, LOCAL_HTTP) && |s| >= |LOCAL_HTTPS| {
      assert s[4] == s[..|LOCAL_HTTP|][4] == LOCAL_HTTP[4] == ':';
      assert s[..|LOCAL_HTTPS|][4] == ':' != LOCAL_HTTPS[4];
    }
  }

  /** `base + rest` begins with a local address only when `base` is that address. */
  lemma BaseDecidesLocal(base: string, rest: string, local: string)
    requires local == LOCAL_HTTP || local == LOCAL_HTTPS
    requires base == local || (!StartsWith(base, local) && !StartsWith(local, base))
    ensures StartsWith(base + rest, local) ==> base == local
  {
  }

  /** The steps after trimming leave `base + rest` as it is. */
  lemma TrimmedPrefixedFixed(base: string, rest: string)
    requires WellFormedBase(base)
    requires !RootOnly(base + rest)
    ensures NormalizeTrimmed(base, base + rest) == Some(base + rest)
  {
    var s := base + rest;
    BaseDecidesLocal(base, rest, LOCAL_HTTP);
    BaseDecidesLocal(base, rest, LOCAL_HTTPS);
    LocalPrefixesExclusive(s);
    assert s[..|base|] == base;
    if StartsWith(s, LOCAL_HTTP) {
      assert s[|LOCAL_HTTP|..] == rest;
    } else if StartsWith(s, LOCAL_HTTPS) {
      assert s[|LOCAL_HTTPS|..] == rest;
    }
  }

  /** Normalising `base + rest` with a well-formed base gives it back. */
  lemma PrefixedFixed(base: string, rest: string)
    requires WellFormedBase(base)
    requires rest == [] || !IsSpace(rest[|rest| - 1])
    ensures NormalizeBackendUrl(base, Some(base + rest)) == Some(base + rest)
  {
    var s := base + rest;
    assert s[0] == base[0];
    assert s[|s| - 1] == if rest == [] then base[|base| - 1] else rest[|rest| - 1];
    TrimFixed(s);
    assert !AllSlashes(s) by {
      var k :| 0 <= k < |base| && base[k] != '/';
      assert s[k] == base[k];
    }
    RootOnlyIffSlashes(s);
    TrimmedPrefixedFixed(base, rest);
  }

  /** A URL the steps after trimming keep as it is stays as it is. */
  lemma KeptFixed(base: string, t: string)
    requires t != [] && !IsSpace(t[0]) && !IsSpace(t[|t| - 1])
    requires NormalizeTrimmed(base, t) == Some(t)
    ensures NormalizeBackendUrl(base, Some(t)) == Some(t)
  {
    TrimFixed(t);
  }

  /** Idempotence on a non-empty trimmed URL. */
  lemma TrimmedIdempotent(base: string, t: string)
    requires WellFormedBase(base)
    requires t != [] && !IsSpace(t[0]) && !IsSpace(t[|t| - 1])
    requires NormalizeTrimmed(base, t).Some?
    ensures NormalizeBackendUrl(base, NormalizeTrimmed(base, t)) == NormalizeTrimmed(base, t)
  {
    if StartsWith(t, LOCAL_HTTP) {
      PrefixedFixed(base, t[|LOCAL_HTTP|..]);
    } else if StartsWith(t, LOCAL_HTTPS) {
      PrefixedFixed(base, t[|LOCAL_HTTPS|..]);
    } else if StartsWith(t, base) {
      KeptFixed(base, t);
    } else if StartsWith(t, "/") {
      PrefixedFixed(base, t);
    } else {
      KeptFixed(base, t);
    }
  }

  /** `normalizeBackendUrl` is idempotent for a well-formed base: a URL already
      normalised (as the PDF hooks store it) is left as it is. */
  lemma NormalizeIdempotent(base: string, url: Option<string>)
    requires WellFormedBase(base)
    ensures NormalizeBackendUrl(base, NormalizeBackendUrl(base, url)) == NormalizeBackendUrl(base, url)
  {
    if url.Some? && Trim(url.value) != [] {
      var t := Trim(url.value);
      TrimEnds(url.value);
      if NormalizeTrimmed(base, t).Some? {
        TrimmedIdempotent(base, t);
      }
    }
  }
}
