/** The value resolver that turns a product's stored picture path into the
    URL the API returns. */
module ImageResolvers {
  import opened Entities

  /** `ProductPictureUrlResolver.Resolve`. `baseUrl` is the configured
      "BaseUrl" value (null when it is not configured). The destination, the
      destination member and the resolution context are not read, so they
      are not parameters. */
  function Resolve(source: Product, baseUrl: Option<string>): (r: string)
    ensures IsNullOrEmpty(source.pictureUrl) ==> r == ""
    ensures !IsNullOrEmpty(source.pictureUrl) ==>
              && |r| == |baseUrl.GetOr("")| + |source.pictureUrl.value|
              && r[..|baseUrl.GetOr("")|] == baseUrl.GetOr("")
              && r[|r| - |source.pictureUrl.value|..] == source.pictureUrl.value
    ensures baseUrl.None? ==> r == source.pictureUrl.GetOr("")
  {
    if !IsNullOrEmpty(source.pictureUrl) then baseUrl.GetOr("") + source.pictureUrl.value
    else ""
  }
}
