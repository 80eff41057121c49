/** generateDonationLink: the personalised link to the donation page. */
module DonationLink {
  import opened UrlEncoding
  import opened DonorRecord

  const BaseUrl: string := "https://secure.winred.com/tom-emmer/emmer-for-congress"

  /** The parameter record handed to URLSearchParams, in its literal's order; the address is encoded before it goes in. */
  function Params(info: DonationInfo): seq<(string, string)>
  {
    [ ("sc", "winred-directory"),
      ("money_bomb", "false"),
      ("recurring", "false"),
      ("first_name", info.firstName),
      ("last_name", info.lastName),
      ("email", info.email),
      ("address", EncodeUriComponent(info.address)),
      ("city", info.city),
      ("state", info.state),
      ("zip", info.zip) ]
  }

  function GenerateDonationLink(info: DonationInfo): string
  {
    BaseUrl + "?" + Query(info)
  }

  /** The query part of the link: the ten parameters, serialized. */
  function Query(info: DonationInfo): string
  {
    SerializeQuery(Params(info))
  }

  /** The three parameters every link starts with. */
  const FixedParams: seq<(string, string)> := [("sc", "winred-directory"), ("money_bomb", "false"), ("recurring", "false")]

  /** The record a parsed parameter list spells, or None if it is not the list Params builds. */
  function RecordOf(ps: seq<(string, string)>): Option<DonationInfo>
  {
    if |ps| != 10 || ps[..3] != FixedParams
       || ps[3].0 != "first_name" || ps[4].0 != "last_name" || ps[5].0 != "email" || ps[6].0 != "address"
       || ps[7].0 != "city" || ps[8].0 != "state" || ps[9].0 != "zip"
    then None
    else
      match DecodeUriComponent(ps[6].1)
      case None => None
      case Some(address) => Some(DonationInfo(ps[3].1, ps[4].1, ps[5].1, address, ps[7].1, ps[8].1, ps[9].1))
  }

  /** The inverse of GenerateDonationLink: the record a link was built from, or None if it is not such a link. */
  function ReadDonationLink(url: string): Option<DonationInfo>
  {
    var prefix := BaseUrl + "?";
    if |url| < |prefix| || url[..|prefix|] != prefix then None
    else
      match ParseQuery(url[|prefix|..])
      case None => None
      case Some(ps) => RecordOf(ps)
  }

  lemma RecordOfParams(info: DonationInfo)
    ensures RecordOf(Params(info)) == Some(info)
  {
    var ps := Params(info);
    assert ps[..3] == FixedParams;
    UriRoundTrip(info.address);
  }

  /**
   * The link is the base URL, '?', and a query that parses into exactly ten
   * pairs: the three constants, then the seven fields in order, the address
   * already passed through encodeURIComponent (so it is encoded twice).
   */
  lemma LinkParameters(info: DonationInfo)
    ensures var url := GenerateDonationLink(info);
      && |url| > |BaseUrl| && url[..|BaseUrl|] == BaseUrl && url[|BaseUrl|] == '?'
      && ParseQuery(url[|BaseUrl| + 1..]) == Some(
        [ ("sc", "winred-directory"), ("money_bomb", "false"), ("recurring", "false"),
          ("first_name", info.firstName), ("last_name", info.lastName), ("email", info.email),
          ("address", EncodeUriComponent(info.address)),
          ("city", info.city), ("state", info.state), ("zip", info.zip) ])
  {
    LinkSplits(info);
    QueryRoundTrip(Params(info));
  }

  /** The link is the base URL, '?' and the query. */
  lemma LinkSplits(info: DonationInfo)
    ensures var url := GenerateDonationLink(info);
      && |url| > |BaseUrl| && url[..|BaseUrl|] == BaseUrl && url[|BaseUrl|] == '?'
      && url[|BaseUrl| + 1..] == SerializeQuery(Params(info))
  {
    var url := GenerateDonationLink(info);
    assert url[..|BaseUrl|] == BaseUrl;
    assert url[|BaseUrl| + 1..] == Query(info);
  }

  /** Reading a generated link gives back the record it was generated from. */
  lemma LinkRoundTrip(info: DonationInfo)
    ensures ReadDonationLink(GenerateDonationLink(info)) == Some(info)
  {
    var url := GenerateDonationLink(info);
    var prefix := BaseUrl + "?";
    assert url[..|prefix|] == prefix;
    assert url[|prefix|..] == SerializeQuery(Params(info));
    QueryRoundTrip(Params(info));
    RecordOfParams(info);
  }

  /** Different records never share a link. */
  lemma LinkDeterminesRecord(a: DonationInfo, b: DonationInfo)
    ensures GenerateDonationLink(a) == GenerateDonationLink(b) ==> a == b
  {
    LinkRoundTrip(a);
    LinkRoundTrip(b);
  }
}
