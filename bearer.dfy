/** Reading the session token from the `Authorization` header (server.js, `authMiddleware`). */
module Bearer {
  import opened Wrappers
  import opened Text

  /** The prefix the middleware demands, with its single space; the match is case-sensitive. */
  const Scheme: string := "Bearer "

  datatype BearerResult = NoBearer | BearerToken(token: string)

  /** A missing header, or one that does not start with `Scheme`, has no bearer token;
      otherwise the token is field 1 of the header split at every space. */
  function ExtractBearer(header: Option<string>): (r: BearerResult)
    ensures r.NoBearer? <==> header.None? || !StartsWith(header.value, Scheme)
    ensures r.BearerToken? ==>
      var h, n := header.value, |Scheme| + |r.token|;
      ' ' !in r.token && n <= |h| && h[..n] == Scheme + r.token && (n == |h| || h[n] == ' ')
  {
    match header
    case None => NoBearer
    case Some(h) =>
      if !StartsWith(h, Scheme) then NoBearer
      else
        BearerField(h);
        BearerToken(Split(h, ' ')[1])
  }

  /** After `Scheme`, field 1 of the split is the longest run of non-space characters. */
  lemma BearerField(h: string)
    requires StartsWith(h, Scheme)
    ensures |Split(h, ' ')| >= 2
    ensures Split(h, ' ')[1] == h[|Scheme|..|Scheme| + IndexOf(h[|Scheme|..], ' ')]
  {
    assert h[6] == ' ';
    assert forall j :: 0 <= j < 6 ==> h[j] != ' ' by {
      assert h[..7] == Scheme;
    }
    assert IndexOf(h, ' ') == 6 by {
      var i := IndexOf(h, ' ');
      assert i <= 6;
    }
    assert Split(h, ' ') == [h[..6]] + Split(h[7..], ' ');
  }

  /** The outcome of the middleware: no bearer (401 "Unauthorized"), a token the JWT library
      rejects (401 "Invalid token"), or the decoded claims handed to the route. */
  datatype AuthResult<Claims> = Unauthorized | InvalidToken | Authenticated(claims: Claims)

  /** `authMiddleware`: header check first, then the foreign `jwt.verify` on the extracted token. */
  function Authenticate<Claims>(header: Option<string>, verifyJwt: string -> Option<Claims>): (r: AuthResult<Claims>)
    ensures r.Unauthorized? <==> ExtractBearer(header).NoBearer?
    ensures r.InvalidToken? <==> ExtractBearer(header).BearerToken? && verifyJwt(ExtractBearer(header).token).None?
    ensures r.Authenticated? ==>
      ExtractBearer(header).BearerToken? && verifyJwt(ExtractBearer(header).token) == Some(r.claims)
  {
    match ExtractBearer(header)
    case NoBearer => Unauthorized
    case BearerToken(t) =>
      match verifyJwt(t)
      case None => InvalidToken
      case Some(c) => Authenticated(c)
  }

  /** The scheme is matched case-sensitively: a lower-case `bearer` is refused. */
  lemma LowerCaseSchemeRefused(rest: string)
    ensures ExtractBearer(Some("bearer " + rest)) == NoBearer
  {
    var h := "bearer " + rest;
    assert h[0] != Scheme[0];
  }

  /** Two spaces after the scheme give an empty token (the split cuts at each space), which
      the JWT library then rejects; the general bearer syntax would allow several spaces. */
  lemma DoubleSpaceGivesEmptyToken(rest: string)
    ensures ExtractBearer(Some(Scheme + " " + rest)) == BearerToken("")
  {
    var h := Scheme + " " + rest;
    assert h[..|Scheme|] == Scheme;
    BearerField(h);
    assert h[|Scheme|..][0] == ' ';
    IndexOfAt(h[|Scheme|..], ' ', 0);
  }

  /** A space-free token followed by a space: everything after that space is ignored. */
  lemma TrailingFieldIgnored(token: string, rest: string)
    requires ' ' !in token
    ensures ExtractBearer(Some(Scheme + token + " " + rest)) == BearerToken(token)
  {
    var h := Scheme + token + " " + rest;
    var t := h[|Scheme|..];
    assert StartsWith(h, Scheme) by {
      assert h[..|Scheme|] == Scheme;
    }
    assert IndexOf(t, ' ') == |token| by {
      assert t == token + " " + rest;
      assert forall j :: 0 <= j < |token| ==> t[j] == token[j];
      IndexOfAt(t, ' ', |token|);
    }
    assert Split(h, ' ')[1] == token by {
      BearerField(h);
      assert t[..|token|] == token;
    }
  }
}
