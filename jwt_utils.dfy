/**
 * The two pieces of `JwtUtils` that are string handling: reading the token out of an
 * `Authorization: Bearer <token>` header (the Bearer scheme of section 2.1 of RFC 6750), and
 * the comma-joined `roles` claim put into a new token.
 */
module JwtUtils {
  import opened Wrappers

  const BearerPrefix: string := "Bearer "

  /**
   * `getJwtFromHeader`: the header value after its first seven characters when it starts with
   * `"Bearer "` (case and space significant), and null otherwise, also when the header is absent.
   */
  function GetJwtFromHeader(header: Option<string>): (r: Option<string>)
    ensures r.Some? <==> header.Some? && BearerPrefix <= header.value
    ensures r.Some? ==> header.value == BearerPrefix + r.value
  {
    if header.Some? && BearerPrefix <= header.value then Some(header.value[7..]) else None
  }

  /** Extraction inverts the header's construction: `"Bearer " + t` yields exactly `t`. */
  lemma ExtractsBearerToken(t: string)
    ensures GetJwtFromHeader(Some(BearerPrefix + t)) == Some(t)
  {
    assert BearerPrefix <= BearerPrefix + t;
  }

  /** The prefix match is case-sensitive and needs the space; `"Bearer "` alone yields `""`. */
  lemma BearerPrefixEdgeCases()
    ensures GetJwtFromHeader(None) == None
    ensures GetJwtFromHeader(Some("bearer x")) == None
    ensures GetJwtFromHeader(Some("Bearerx")) == None
    ensures GetJwtFromHeader(Some("Bearer ")) == Some("")
  {
    assert "bearer x"[0] != BearerPrefix[0];
    assert "Bearerx"[6] != BearerPrefix[6];
  }

  /** `Collectors.joining(",")` over the authority names, in iteration order. */
  function JoinRoles(roles: seq<string>): string
  {
    if roles == [] then ""
    else if |roles| == 1 then roles[0]
    else roles[0] + "," + JoinRoles(roles[1..])
  }

  /**
   * Splitting at every comma: the reading a consumer of the claim applies. It keeps empty
   * pieces, so it always yields at least one piece.
   */
  function SplitOnComma(s: string): (r: seq<string>)
    ensures |r| >= 1
  {
    if s == [] then [""]
    else if s[0] == ',' then [""] + SplitOnComma(s[1..])
    else
      var rest := SplitOnComma(s[1..]);
      [[s[0]] + rest[0]] + rest[1..]
  }

  /** A piece without a comma, followed by a comma, is split off whole. */
  lemma {:induction false} SplitAfterPiece(a: string, b: string)
    requires ',' !in a
    ensures SplitOnComma(a + "," + b) == [a] + SplitOnComma(b)
    ensures SplitOnComma(a) == [a]
  {
    if a == [] {
      assert a + "," + b == [','] + b;
      assert ([','] + b)[1..] == b;
    } else {
      assert (a + "," + b)[1..] == a[1..] + "," + b;
      SplitAfterPiece(a[1..], b);
      assert [a[0]] + a[1..] == a;
    }
  }

  /** A non-empty list of role names without commas is recovered from the joined claim. */
  lemma {:induction false} JoinRolesRoundTrip(roles: seq<string>)
    requires |roles| >= 1
    requires forall i :: 0 <= i < |roles| ==> ',' !in roles[i]
    ensures SplitOnComma(JoinRoles(roles)) == roles
  {
    if |roles| == 1 {
      SplitAfterPiece(roles[0], "");
    } else {
      JoinRolesRoundTrip(roles[1..]);
      SplitAfterPiece(roles[0], JoinRoles(roles[1..]));
      assert roles == [roles[0]] + roles[1..];
    }
  }
}
