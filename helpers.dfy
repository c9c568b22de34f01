/** Request helpers: the user id path parameter and the Source-Type whitelist. */
module Helpers {
  import opened Wrappers
  import opened Decimal

  const InvalidUserIdMessage: string := "invalid user id"

  /** Go's `(uint64, error)` pair: the id is 0 whenever the error is present. */
  datatype ParsedUserId = ParsedUserId(id: uint64, err: Option<string>)

  /** The {userId} path segment must be a base-10 uint64 other than 0. */
  function ParseUserID(raw: string): (r: ParsedUserId)
    ensures r.err.None? ==> 1 <= r.id && raw != [] && AllDigits(raw) && DigitsValue(raw) == r.id
    ensures r.err.Some? ==> r.id == 0 && r.err == Some(InvalidUserIdMessage)
  {
    match ParseUint64(raw)
    case Some(id) =>
      if id == 0 then ParsedUserId(0, Some(InvalidUserIdMessage)) else ParsedUserId(id, None)
    case None => ParsedUserId(0, Some(InvalidUserIdMessage))
  }

  /** Exactly the non-empty digit strings whose value lies in [1, 2^64) are accepted. */
  lemma ParseUserIDAccepts(raw: string)
    ensures ParseUserID(raw).err.None? <==> raw != [] && AllDigits(raw) && 0 < DigitsValue(raw) < U64_LIMIT
  {
  }

  /** Every id the service can be given has a spelling that parses back to it. */
  lemma ParseUserIDFormat(id: uint64)
    requires id >= 1
    ensures ParseUserID(FormatNat(id)) == ParsedUserId(id, None)
  {
    FormatNatRoundTrip(id);
  }

  /**
   * Apart from leading zeros a user id has one spelling: an accepted id that does not start
   * with '0' is exactly the decimal form of the id it names.
   */
  lemma ParseUserIDCanonical(raw: string)
    requires raw != [] && raw[0] != '0'
    ensures ParseUserID(raw).err.None? ==> FormatNat(ParseUserID(raw).id) == raw
  {
    if ParseUserID(raw).err.None? {
      CanonicalRoundTrip(raw);
    }
  }

  /** Values of 2^64 and above overflow and are rejected, as is 0. */
  lemma ParseUserIDRejectsOutOfRange(n: nat)
    requires n == 0 || n >= U64_LIMIT
    ensures ParseUserID(FormatNat(n)) == ParsedUserId(0, Some(InvalidUserIdMessage))
  {
    FormatNatRoundTrip(n);
  }

  /** Leading zeros are accepted and ignored: "007" names user 7. */
  lemma ParseUserIDLeadingZero(raw: string)
    ensures ParseUserID("0" + raw) == ParseUserID(raw)
  {
    if AllDigits(raw) {
      LeadingZero(raw);
    } else {
      var i :| 0 <= i < |raw| && !IsDigit(raw[i]);
      assert ("0" + raw)[i + 1] == raw[i];
    }
  }

  /** The Source-Type header values the service accepts. */
  function ValidSourceTypes(): map<string, bool>
  {
    map["game" := true, "server" := true, "payment" := true]
  }

  /** Go's lookup `validSourceTypes[s]`: a missing key reads as false. */
  function IsValidSourceType(s: string): (b: bool)
    ensures b <==> s == "game" || s == "server" || s == "payment"
  {
    var m := ValidSourceTypes();
    s in m && m[s]
  }
}
