/**
 * Credential extraction from the `Authorization` header
 * (internal/auth/bearer.go and internal/auth/polka.go).
 */
module Auth {
  import opened Text
  import opened Wrappers

  /** `http.Header`: each header name maps to its values, in order of arrival. */
  type Header = map<string, seq<Bytes>>

  const Authorization: string := "Authorization"

  datatype AuthError =
    | MissingHeader    // "No authorization header found"
    | MalformedHeader  // "Authorization header incorrectly formatted"

  /**
   * Both extractors read `value[0]` of a present header; net/http never
   * records a header name without a value.
   */
  predicate HasFirstValue(headers: Header)
  {
    Authorization in headers ==> |headers[Authorization]| > 0
  }

  /** A request carrying exactly one `Authorization` value. */
  function AuthHeader(value: Bytes): (headers: Header)
    ensures HasFirstValue(headers)
  {
    map[Authorization := [value]]
  }

  /**
   * `GetBearerToken`: the second of exactly two space-separated words of
   * the first `Authorization` value. The first word is never looked at.
   */
  function GetBearerToken(headers: Header): (r: Result<Bytes, AuthError>)
    requires HasFirstValue(headers)
    ensures Authorization !in headers ==> r == Failure(MissingHeader)
    ensures Authorization in headers ==>
      var v := headers[Authorization][0];
      && (r.Success? <==> Count(v, Space) == 1 && v[|v| - 1] != Space)
      && (r.Failure? ==> r.error == MalformedHeader)
      && (r.Success? ==>
            && r.value != [] && Space !in r.value && |r.value| < |v|
            && v == v[..|v| - |r.value| - 1] + [Space] + r.value)
  {
    if Authorization in headers then
      var v := headers[Authorization][0];
      var words := Split(v);
      assert |words| == 2 ==> v == words[0] + [Space] + words[1] by {
        if |words| == 2 {
          assert Join(words) == words[0] + [Space] + Join(words[1..]);
        }
      }
      if |words| != 2 || |words[1]| == 0 then
        Failure(MalformedHeader)
      else
        Success(words[1])
    else
      Failure(MissingHeader)
  }

  /** Any scheme word, a single space and a non-empty space-free token yield that token. */
  lemma {:induction false} BearerTokenOfTwoWords(scheme: Bytes, token: Bytes)
    requires Space !in scheme && Space !in token && token != []
    ensures GetBearerToken(AuthHeader(scheme + [Space] + token)) == Success(token)
  {
    var words := [scheme, token];
    assert Join(words) == scheme + [Space] + token by {
      assert words[1..] == [token];
    }
    SplitJoin(words);
  }

  /** A second space anywhere in the value makes the header malformed. */
  lemma {:induction false} BearerTokenRejectsExtraSpace(v: Bytes, i: int, j: int)
    requires 0 <= i < j < |v| && v[i] == Space && v[j] == Space
    ensures GetBearerToken(AuthHeader(v)) == Failure(MalformedHeader)
  {
    var a, b, c := v[..i], v[i..j], v[j..];
    assert v == a + b + c;
    CountAppend(a, b, Space);
    CountAppend(a + b, c, Space);
    assert b == [Space] + b[1..];
    CountAppend([Space], b[1..], Space);
    assert c == [Space] + c[1..];
    CountAppend([Space], c[1..], Space);
  }

  /** Only the first value of the header is examined. */
  lemma {:induction false} BearerTokenReadsFirstValue(v: Bytes, later: seq<Bytes>)
    ensures GetBearerToken(map[Authorization := [v] + later]) == GetBearerToken(AuthHeader(v))
  {
  }

  // The five cases of internal/auth/auth_test.go, and a scheme other than `Bearer`.

  lemma BearerTokenValid()
    ensures GetBearerToken(AuthHeader(Str("Bearer my-token-string"))) == Success(Str("my-token-string"))
  {
    assert Str("Bearer my-token-string") == Str("Bearer") + [Space] + Str("my-token-string");
    BearerTokenOfTwoWords(Str("Bearer"), Str("my-token-string"));
  }

  lemma BearerTokenNoAuthHeader()
    ensures GetBearerToken(map[]) == Failure(MissingHeader)
  {
  }

  lemma BearerTokenEmptyAuthHeader()
    ensures GetBearerToken(AuthHeader(Str(""))) == Failure(MalformedHeader)
  {
  }

  lemma BearerTokenNoBearerPrefix()
    ensures GetBearerToken(AuthHeader(Str("my-token-string"))) == Failure(MalformedHeader)
  {
    StrWithoutBlank("my-token-string");
    CountAbsent(Str("my-token-string"), Space);
  }

  lemma BearerTokenBearerOnly()
    ensures GetBearerToken(AuthHeader(Str("Bearer "))) == Failure(MalformedHeader)
  {
  }

  lemma BearerTokenOtherScheme()
    ensures GetBearerToken(AuthHeader(Str("Basic abc"))) == Success(Str("abc"))
  {
    assert Str("Basic abc") == Str("Basic") + [Space] + Str("abc");
    BearerTokenOfTwoWords(Str("Basic"), Str("abc"));
  }

  /**
   * `GetAPIKey`, with the case the source does not handle made explicit:
   * the second space-separated word of the trimmed first `Authorization`
   * value, or `MalformedHeader` when the trimmed value has no space.
   */
  function GetAPIKey(headers: Header): (r: Result<Bytes, AuthError>)
    requires HasFirstValue(headers)
    ensures Authorization !in headers ==> r == Failure(MissingHeader)
    ensures Authorization in headers ==>
      var t := TrimSpace(headers[Authorization][0]);
      && (r.Success? <==> Space in t)
      && (r.Failure? ==> r.error == MalformedHeader)
      && (r.Success? ==> Space !in r.value)
  {
    if Authorization in headers then
      KeyOfTrimmed(TrimSpace(headers[Authorization][0]))
    else
      Failure(MissingHeader)
  }

  /** The key in an already trimmed value: its second space-separated word, if it has one. */
  function KeyOfTrimmed(t: Bytes): (r: Result<Bytes, AuthError>)
    ensures r.Success? <==> Space in t
    ensures r.Failure? ==> r.error == MalformedHeader
    ensures r.Success? ==> Space !in r.value
  {
    var words := Split(t);
    CountAbsent(t, Space);
    if |words| < 2 then Failure(MalformedHeader) else Success(words[1])
  }

  /**
   * The key is the word after the first space of the trimmed value: what
   * follows it, from the next space on, is ignored.
   */
  lemma {:induction false} ApiKeyIsSecondWord(v: Bytes, first: Bytes, key: Bytes, rest: Bytes)
    requires TrimSpace(v) == first + [Space] + key + rest
    requires Space !in first && Space !in key
    requires rest == [] || rest[0] == Space
    ensures GetAPIKey(AuthHeader(v)) == Success(key)
  {
    SplitSecondWord(first, key, rest);
  }

  lemma ApiKeyNoAuthHeader()
    ensures GetAPIKey(map[]) == Failure(MissingHeader)
  {
  }

  /** White space around the value never changes the outcome. */
  lemma {:induction false} ApiKeyPadded(pre: Bytes, v: Bytes, post: Bytes)
    requires AllSpace(pre) && AllSpace(post)
    requires v == [] || (!IsSpace(v[0]) && !IsSpace(v[|v| - 1]))
    ensures GetAPIKey(AuthHeader(pre + v + post)) == GetAPIKey(AuthHeader(v))
  {
    TrimSpaceAround(pre, v, post);
    TrimSpaceUntouched(v);
  }

  /** The webhook's own form, `ApiKey <key>`. */
  lemma ApiKeyValid()
    ensures GetAPIKey(AuthHeader(Str("ApiKey abc"))) == Success(Str("abc"))
  {
    var apiKey, abc := Str("ApiKey"), Str("abc");
    assert Str("ApiKey abc") == apiKey + [Space] + abc + [] by {
      StrAppend("ApiKey ", "abc");
    }
    StrWithoutBlank("ApiKey");
    StrWithoutBlank("abc");
    ApiKeyOfWords(apiKey, abc, []);
  }

  /** Surrounding white space is trimmed before splitting. */
  lemma ApiKeyTrimmed()
    ensures GetAPIKey(AuthHeader(Str(" ApiKey abc "))) == Success(Str("abc"))
  {
    var core := Str("ApiKey abc");
    assert Str(" ApiKey abc ") == [Space] + core + [Space];
    assert core[0] == 65 && core[|core| - 1] == 99;
    ApiKeyPadded([Space], core, [Space]);
    ApiKeyValid();
  }

  /**
   * A value that needs no trimming: a scheme word, a space, the key, then
   * either nothing or a space and more words. The key is the result.
   */
  lemma {:induction false} ApiKeyOfWords(scheme: Bytes, key: Bytes, rest: Bytes)
    requires Space !in scheme && Space !in key
    requires scheme != [] && !IsSpace(scheme[0])
    requires rest == [] ==> key != [] && !IsSpace(key[|key| - 1])
    requires rest != [] ==> rest[0] == Space && !IsSpace(rest[|rest| - 1])
    ensures GetAPIKey(AuthHeader(scheme + [Space] + key + rest)) == Success(key)
  {
    var v := scheme + [Space] + key + rest;
    assert v[0] == scheme[0];
    assert v[|v| - 1] == if rest == [] then key[|key| - 1] else rest[|rest| - 1];
    TrimSpaceUntouched(v);
    ApiKeyIsSecondWord(v, scheme, key, rest);
  }

  /** A third word is ignored (`GetBearerToken` would reject the header). */
  lemma ApiKeyThirdWordIgnored()
    ensures GetAPIKey(AuthHeader(Str("ApiKey abc def"))) == Success(Str("abc"))
  {
    var apiKey, abc, rest := Str("ApiKey"), Str("abc"), Str(" def");
    assert Str("ApiKey abc def") == apiKey + [Space] + abc + rest by {
      StrAppend("ApiKey ", "abc def");
      StrAppend("abc", " def");
    }
    StrWithoutBlank("ApiKey");
    StrWithoutBlank("abc");
    ApiKeyOfWords(apiKey, abc, rest);
  }

  /** Two spaces after the first word give an empty key. */
  lemma ApiKeyEmptyAfterDoubleSpace()
    ensures GetAPIKey(AuthHeader(Str("ApiKey  abc"))) == Success([])
  {
    var apiKey, rest := Str("ApiKey"), Str(" abc");
    assert Str("ApiKey  abc") == apiKey + [Space] + [] + rest by {
      StrAppend("ApiKey ", " abc");
    }
    StrWithoutBlank("ApiKey");
    ApiKeyOfWords(apiKey, [], rest);
  }

  /**
   * `GetAPIKey` as internal/auth/polka.go writes it: `words[1]` is read
   * without a length check, so it is defined only when the trimmed value
   * splits into at least two words. Where it is defined it never fails
   * on a present header and agrees with `GetAPIKey`.
   */
  function GetAPIKeyAsWritten(headers: Header): (r: Result<Bytes, AuthError>)
    requires HasFirstValue(headers)
    requires Authorization in headers ==> |Split(TrimSpace(headers[Authorization][0]))| > 1
    ensures r.Failure? <==> Authorization !in headers
    ensures r == GetAPIKey(headers)
  {
    if Authorization in headers then
      var words := Split(TrimSpace(headers[Authorization][0]));
      Success(words[1])
    else
      Failure(MissingHeader)
  }

  /**
   * A value that is one word with no white space around it: the trimmed
   * value splits into that one word, so there is no `words[1]`, and
   * `GetAPIKey` reports a malformed header.
   */
  lemma {:induction false} ApiKeyOfOneWord(w: Bytes)
    requires Space !in w
    requires w == [] || (!IsSpace(w[0]) && !IsSpace(w[|w| - 1]))
    ensures Split(TrimSpace(w)) == [w]
    ensures GetAPIKey(AuthHeader(w)) == Failure(MalformedHeader)
  {
    TrimSpaceUntouched(w);
    SplitWord(w);
  }

  /**
   * A bare key with no scheme word: the as-written code would index past
   * the end of the split (its precondition fails), while `GetAPIKey`
   * reports a malformed header.
   */
  lemma ApiKeyWithoutSchemeIndexesPastEnd()
    ensures |Split(TrimSpace(Str("f271c81ff7084ee5b99a5091b42cc2c9")))| == 1
    ensures GetAPIKey(AuthHeader(Str("f271c81ff7084ee5b99a5091b42cc2c9"))) == Failure(MalformedHeader)
  {
    var v := Str("f271c81ff7084ee5b99a5091b42cc2c9");
    StrWithoutBlank("f271c81ff7084ee5b99a5091b42cc2c9");
    assert v[0] == 102 && v[|v| - 1] == 57;
    ApiKeyOfOneWord(v);
  }
}
