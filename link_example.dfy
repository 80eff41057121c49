/**
 * How an address with spaces reaches the donation link.  The address is
 * passed through encodeURIComponent before it goes into the query, and
 * the query serializer then percent-encodes the '%' of every escape again,
 * so a space arrives as %2520 rather than %20.
 */
module LinkExample {
  import opened UrlEncoding
  import opened DonorRecord
  import opened DonationLink

  lemma SpaceForms()
    ensures FormUrlEncode(" ") == "+"
    ensures EncodeUriComponent(" ") == "%20"
  {
    assert Utf8Encode(" ") == [0x20];
  }

  lemma PercentForm()
    ensures FormUrlEncode("%") == "%25"
  {
    assert Utf8Encode("%") == [0x25];
  }

  lemma DigitsSpared()
    ensures FormUrlEncode("20") == "20"
  {
    FormUrlEncodeSpares("20");
  }

  lemma EscapeGlue(a: string, b: string)
    requires FormUrlEncode(a) == "%25" && FormUrlEncode(b) == "20"
    ensures FormUrlEncode(a + b) == "%2520"
  {
    FormUrlEncodeAppend(a, b);
  }

  /** A single space, encoded by encodeURIComponent and then by the serializer. */
  lemma SpaceEncodedTwice()
    ensures FormUrlEncode(EncodeUriComponent(" ")) == "%2520"
  {
    SpaceForms();
    PercentForm();
    DigitsSpared();
    EscapeGlue("%", "20");
    assert "%" + "20" == "%20";
  }

  /** Around a space, both encodings work piece by piece. */
  lemma SpaceSplitsEncoding(a: string, b: string)
    ensures FormUrlEncode(EncodeUriComponent(a + " " + b))
      == FormUrlEncode(EncodeUriComponent(a)) + "%2520" + FormUrlEncode(EncodeUriComponent(b))
  {
    EncodeUriComponentAppend(a + " ", b);
    EncodeUriComponentAppend(a, " ");
    var x, y, z := EncodeUriComponent(a), EncodeUriComponent(" "), EncodeUriComponent(b);
    FormUrlEncodeAppend(x + y, z);
    FormUrlEncodeAppend(x, y);
    SpaceEncodedTwice();
  }

  lemma AddressParam(info: DonationInfo)
    ensures Params(info)[6] == ("address", EncodeUriComponent(info.address))
  {
  }

  /**
   * The address parameter of the link for an address holding a space: in
   * the serialized query the space appears as %2520 between the
   * twice-encoded parts on either side of it.
   */
  lemma AddressSpaceInLink(info: DonationInfo, a: string, b: string)
    requires info.address == a + " " + b
    ensures Params(info)[6].0 == "address"
    ensures FormUrlEncode(Params(info)[6].1)
      == FormUrlEncode(EncodeUriComponent(a)) + "%2520" + FormUrlEncode(EncodeUriComponent(b))
  {
    AddressParam(info);
    SpaceSplitsEncoding(a, b);
  }
}
