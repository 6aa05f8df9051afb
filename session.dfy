/** The fake session: a `Set-Cookie` header value that carries the claimed
    user name as `fakeSessionToken`, unsigned, with fixed attributes. */
module Session {
  import opened Wrappers

  const CookieName := "fakeSessionToken"
  const TokenPrefix := CookieName + "="
  /** The attribute list, split after its leading ';' so that the verifier
      sees where the token ends. */
  const Attributes := ";" + " HttpOnly; SameSite=lax; Path=/; Max-Age=3600"

  /** `createFakeSerializedCookie(name)`: the token prefix, the name verbatim,
      then the fixed attribute list (http-only, same-site lax, path "/",
      one hour of max-age). */
  function CreateFakeSerializedCookie(name: string): (cookie: string)
    ensures |cookie| == |TokenPrefix| + |name| + |Attributes|
    ensures cookie[..|TokenPrefix|] == TokenPrefix
    ensures cookie[|TokenPrefix|..|TokenPrefix| + |name|] == name
    ensures cookie[|TokenPrefix| + |name|..] == Attributes
  {
    TokenPrefix + name + Attributes
  }

  /** The longest prefix of `s` that does not contain `c`. */
  function UpTo(s: string, c: char): (p: string)
    ensures p <= s && c !in p
    ensures |p| < |s| ==> s[|p|] == c
  {
    if s == [] || s[0] == c then [] else [s[0]] + UpTo(s[1..], c)
  }

  /** The raw cookie value in `header`: what follows `fakeSessionToken=`
      up to the first ';'. It is not trimmed, unquoted or percent-decoded, so
      it equals the parsed `fakeSessionToken` only for a plain token. */
  function CookieValue(header: string): (v: Option<string>)
    ensures v.Some? ==> ';' !in v.value
    ensures v.Some? <==> |TokenPrefix| <= |header| && header[..|TokenPrefix|] == TokenPrefix
  {
    if |TokenPrefix| <= |header| && header[..|TokenPrefix|] == TokenPrefix
    then Some(UpTo(header[|TokenPrefix|..], ';'))
    else None
  }

  lemma {:induction false} UpToStopsAtSeparator(x: string, t: string, c: char)
    requires c !in x
    requires t != [] && t[0] == c
    ensures UpTo(x + t, c) == x
  {
    if x != [] {
      assert (x + t)[1..] == x[1..] + t;
      UpToStopsAtSeparator(x[1..], t, c);
    }
  }

  /** A character RFC 6265 (section 4.1.1) allows in a cookie value, other
      than '%': printable ASCII except double quote, comma, semicolon and
      backslash. Such a character is accepted by `setHeader`, and is not
      trimmed, unquoted or decoded on the way back to `req.cookies`. */
  predicate IsPlainOctet(c: char) {
    '!' <= c <= '~' && c != '"' && c != ',' && c != ';' && c != '\\' && c != '%'
  }

  /** A name made only of plain cookie characters. */
  predicate PlainToken(name: string) {
    forall i :: 0 <= i < |name| ==> IsPlainOctet(name[i])
  }

  /** A plain name survives the trip through the cookie unchanged. */
  lemma {:induction false} SessionCookieRoundTrip(name: string)
    requires PlainToken(name)
    ensures CookieValue(CreateFakeSerializedCookie(name)) == Some(name)
  {
    assert ';' !in name;
    var cookie := CreateFakeSerializedCookie(name);
    assert cookie[|TokenPrefix|..] == name + Attributes;
    assert Attributes[0] == ';';
    UpToStopsAtSeparator(name, Attributes, ';');
  }

  /** A ';' in the name ends the token early: the serialiser does not escape. */
  lemma {:induction false} SessionCookieTruncatesAtSeparator(x: string, y: string)
    requires ';' !in x
    ensures CookieValue(CreateFakeSerializedCookie(x + ";" + y)) == Some(x)
  {
    var cookie := CreateFakeSerializedCookie(x + ";" + y);
    assert cookie[|TokenPrefix|..] == x + (";" + y + Attributes);
    UpToStopsAtSeparator(x, ";" + y + Attributes, ';');
  }
}
