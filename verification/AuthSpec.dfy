/** Authentication shapes of registrations and overrides (src/registrations/auth_spec.rs). */
module AuthSpecs {
  import opened Wrappers

  datatype AuthSpec =
    | NoAuth
    | Header(header: string, envVar: string)
    | Bearer(envVar: string)
    | StoredHeader(header: string, secretRef: string)
    | StoredBearer(secretRef: string)
    | OpHeader(header: string, reference: string)
    | OpBearer(reference: string)
    | OauthPkce(clientId: string, redirectUri: string, scopes: seq<string>, authUrl: string, tokenUrl: string,
                sessionLabel: Option<string>)
    | OauthDeviceCode(clientId: string, scopes: seq<string>, deviceUrl: string, tokenUrl: string,
                      sessionLabel: Option<string>)
  {
    predicate IsOauth() { OauthPkce? || OauthDeviceCode? }

    function StoredSecretRef(): Option<string>
    {
      if StoredHeader? || StoredBearer? then Some(secretRef) else None
    }

    function HeaderName(): Option<string>
    {
      if Header? || StoredHeader? || OpHeader? then Some(header) else None
    }

    function OauthSessionLabel(): Option<string>
    {
      if IsOauth() then sessionLabel else None
    }

    /** The reference of an `op` variant must be `op://` followed by something. */
    predicate ValidOpReference()
    {
      OpHeader? || OpBearer? ==> "op://" < reference
    }
  }

  /** The stored spec a set-value handler writes: header-shaped stays header-shaped. */
  function StoredSpec(header: Option<string>, secretRef: string): (spec: AuthSpec)
    ensures spec.HeaderName() == header && spec.StoredSecretRef() == Some(secretRef)
  {
    if header.Some? then StoredHeader(header.value, secretRef) else StoredBearer(secretRef)
  }

  /** Unicode White_Space, as `str::trim` uses it. */
  predicate Whitespace(c: char)
  {
    var n := c as int;
    9 <= n <= 13 || n in {0x20, 0x85, 0xA0, 0x1680, 0x2028, 0x2029, 0x202F, 0x205F, 0x3000} || 0x2000 <= n <= 0x200A
  }

  /** `s.trim().is_empty()`. */
  predicate Blank(s: string)
  {
    forall i | 0 <= i < |s| :: Whitespace(s[i])
  }

  /** Public OAuth metadata of a usable selection (`selected_parameters`); `urlOk` stands
      for the URL parser's verdict (http or https with a host). */
  function SelectedParameters(spec: AuthSpec, urlOk: string -> bool): Option<(string, string)>
  {
    if spec.IsOauth() && urlOk(spec.tokenUrl) && !Blank(spec.clientId) then Some((spec.tokenUrl, spec.clientId))
    else None
  }
}
