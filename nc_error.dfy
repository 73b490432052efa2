/**
 * The error vocabulary of the crate (src/nc_error.rs): the `NCError` enum,
 * its `Display` text, its `Error::source` and the two `From` conversions.
 * The foreign errors it wraps (`net::AddrParseError`, `io::Error`,
 * `bincode::Error`) are opaque values that carry only their display text.
 */
module NcError {
  import opened Wrappers
  import opened MachineInts

  /** `std::net::AddrParseError`, known only by the text it displays. */
  datatype AddrParseError = AddrParseError(text: string)

  /** `std::io::Error`, known only by the text it displays. */
  datatype IoError = IoError(text: string)

  /** `bincode::Error`, known only by the text it displays. */
  datatype BincodeError = BincodeError(text: string)

  datatype NCError =
    | IPAddrParse(addr: AddrParseError)
    | IOError(io: IoError)
    | Serialize(ser: BincodeError)
    | Deserialize(de: BincodeError)
    | ServerMsgMismatch
    | NodeMsgMismatch
    | Custom(code: u32)

  /** The variant of an `NCError`, without its payload. */
  datatype Variant =
    | IPAddrParseV
    | IOErrorV
    | SerializeV
    | DeserializeV
    | ServerMsgMismatchV
    | NodeMsgMismatchV
    | CustomV

  function VariantOf(e: NCError): Variant {
    match e
    case IPAddrParse(_) => IPAddrParseV
    case IOError(_) => IOErrorV
    case Serialize(_) => SerializeV
    case Deserialize(_) => DeserializeV
    case ServerMsgMismatch => ServerMsgMismatchV
    case NodeMsgMismatch => NodeMsgMismatchV
    case Custom(_) => CustomV
  }

  /** What `source()` can hand back: one of the wrapped foreign errors, or an `NCError`. */
  datatype ErrorValue =
    | AddrParseValue(addr: AddrParseError)
    | IoValue(io: IoError)
    | BincodeValue(bincode: BincodeError)
    | NcValue(nc: NCError)

  // ---------------------------------------------------------------------
  // Decimal text of an unsigned integer, as `{}` writes it
  // ---------------------------------------------------------------------

  predicate IsDigits(s: string) {
    forall i :: 0 <= i < |s| ==> '0' <= s[i] <= '9'
  }

  function DigitChar(d: nat): (c: char)
    requires d < 10
    ensures '0' <= c <= '9'
  {
    (48 + d) as char
  }

  function DigitValue(c: char): (d: nat)
    requires '0' <= c <= '9'
    ensures d < 10
  {
    c as int - 48
  }

  /** The decimal digits of `n`: at least one, and no leading zero. */
  function Decimal(n: nat): (r: string)
    ensures 1 <= |r| && IsDigits(r)
    ensures r[0] == '0' <==> n == 0
    ensures n == 0 ==> r == "0"
    decreases n
  {
    if n < 10 then [DigitChar(n)] else Decimal(n / 10) + [DigitChar(n % 10)]
  }

  /** Reads a string of digits back as a number; the inverse of `Decimal`. */
  function ParseDecimal(s: string): nat
    requires IsDigits(s)
  {
    if s == [] then 0 else ParseDecimal(s[..|s| - 1]) * 10 + DigitValue(s[|s| - 1])
  }

  lemma {:induction false} DecimalRoundTrip(n: nat)
    ensures ParseDecimal(Decimal(n)) == n
    decreases n
  {
    if n >= 10 {
      var s := Decimal(n / 10);
      var t := s + [DigitChar(n % 10)];
      assert t[..|t| - 1] == s;
      DecimalRoundTrip(n / 10);
    }
  }

  /** Different numbers have different decimal text. */
  lemma DecimalInjective(m: nat, n: nat)
    requires Decimal(m) == Decimal(n)
    ensures m == n
  {
    DecimalRoundTrip(m);
    DecimalRoundTrip(n);
  }

  // ---------------------------------------------------------------------
  // Display
  // ---------------------------------------------------------------------

  const IP_ADDR_PARSE_PREFIX: string := "IP address parse error: "
  const IO_ERROR_PREFIX: string := "IO error: "
  const SERIALIZE_PREFIX: string := "Serialize bincode error: "
  const DESERIALIZE_PREFIX: string := "Deserialize bincode error: "
  const SERVER_MSG_MISMATCH_TEXT: string := "Server message mismatch error"
  const NODE_MSG_MISMATCH_TEXT: string := "Node message mismatch error"
  const CUSTOM_PREFIX: string := "Custom user defined error: "

  /** `impl fmt::Display for NCError`: the text `format!("{}", e)` produces. */
  function Display(e: NCError): string {
    match e
    case IPAddrParse(a) => IP_ADDR_PARSE_PREFIX + a.text
    case IOError(i) => IO_ERROR_PREFIX + i.text
    case Serialize(b) => SERIALIZE_PREFIX + b.text
    case Deserialize(b) => DESERIALIZE_PREFIX + b.text
    case ServerMsgMismatch => SERVER_MSG_MISMATCH_TEXT
    case NodeMsgMismatch => NODE_MSG_MISMATCH_TEXT
    case Custom(n) => CUSTOM_PREFIX + Decimal(n as nat)
  }

  /** The fixed text each variant's display starts with. */
  function Prefix(v: Variant): string {
    match v
    case IPAddrParseV => IP_ADDR_PARSE_PREFIX
    case IOErrorV => IO_ERROR_PREFIX
    case SerializeV => SERIALIZE_PREFIX
    case DeserializeV => DESERIALIZE_PREFIX
    case ServerMsgMismatchV => SERVER_MSG_MISMATCH_TEXT
    case NodeMsgMismatchV => NODE_MSG_MISMATCH_TEXT
    case CustomV => CUSTOM_PREFIX
  }

  /**
   * Recovers the variant from a displayed text by the first characters that
   * tell the seven prefixes apart.
   */
  function VariantOfText(s: string): Option<Variant> {
    if |s| < 4 then None
    else if s[0] == 'I' && s[1] == 'P' then Some(IPAddrParseV)
    else if s[0] == 'I' && s[1] == 'O' then Some(IOErrorV)
    else if s[0] == 'S' && s[3] == 'i' then Some(SerializeV)
    else if s[0] == 'S' && s[3] == 'v' then Some(ServerMsgMismatchV)
    else if s[0] == 'D' then Some(DeserializeV)
    else if s[0] == 'N' then Some(NodeMsgMismatchV)
    else if s[0] == 'C' then Some(CustomV)
    else None
  }

  /** Each variant's text starts with that variant's own prefix. */
  lemma DisplayStartsWithPrefix(e: NCError)
    ensures Prefix(VariantOf(e)) <= Display(e)
  {
  }

  /** The displayed text alone tells which variant was displayed. */
  lemma DisplayNamesItsVariant(e: NCError)
    ensures VariantOfText(Display(e)) == Some(VariantOf(e))
  {
  }

  /** Errors of different variants never display the same text. */
  lemma DisplayDistinguishesVariants(a: NCError, b: NCError)
    requires VariantOf(a) != VariantOf(b)
    ensures Display(a) != Display(b)
  {
    DisplayNamesItsVariant(a);
    DisplayNamesItsVariant(b);
  }

  /** Display is one-to-one on the model: the text determines the error. */
  lemma DisplayInjective(a: NCError, b: NCError)
    requires Display(a) == Display(b)
    ensures a == b
  {
    DisplayNamesItsVariant(a);
    DisplayNamesItsVariant(b);
    var s := Display(a);
    match a
    case IPAddrParse(x) =>
      assert x.text == s[|IP_ADDR_PARSE_PREFIX|..] == b.addr.text;
    case IOError(x) =>
      assert x.text == s[|IO_ERROR_PREFIX|..] == b.io.text;
    case Serialize(x) =>
      assert x.text == s[|SERIALIZE_PREFIX|..] == b.ser.text;
    case Deserialize(x) =>
      assert x.text == s[|DESERIALIZE_PREFIX|..] == b.de.text;
    case ServerMsgMismatch =>
    case NodeMsgMismatch =>
    case Custom(n) =>
      assert Decimal(n as nat) == s[|CUSTOM_PREFIX|..] == Decimal(b.code as nat);
      DecimalInjective(n as nat, b.code as nat);
  }

  // ---------------------------------------------------------------------
  // Error::source
  // ---------------------------------------------------------------------

  /** `impl error::Error for NCError`, `source()`, as written. */
  function Source(e: NCError): Option<ErrorValue> {
    match e
    case IPAddrParse(a) => Some(AddrParseValue(a))
    case IOError(i) => Some(IoValue(i))
    case Serialize(b) => Some(BincodeValue(b))
    case Deserialize(b) => Some(BincodeValue(b))
    case ServerMsgMismatch => None
    case NodeMsgMismatch => None
    case Custom(_) => Some(NcValue(e))
  }

  /** `source()` as evidently intended: a `Custom` error has no underlying cause. */
  function SourceCorrected(e: NCError): Option<ErrorValue> {
    if e.Custom? then None else Source(e)
  }

  /** `source()` is absent exactly for the two mismatch variants. */
  lemma SourceAbsentExactlyForMismatch(e: NCError)
    ensures Source(e).None? <==> e.ServerMsgMismatch? || e.NodeMsgMismatch?
  {
  }

  /** A wrapping variant's source is the very error it wraps; Custom's is itself. */
  lemma SourceIsWrappedError(e: NCError)
    ensures e.IPAddrParse? ==> Source(e) == Some(AddrParseValue(e.addr))
    ensures e.IOError? ==> Source(e) == Some(IoValue(e.io))
    ensures e.Serialize? ==> Source(e) == Some(BincodeValue(e.ser))
    ensures e.Deserialize? ==> Source(e) == Some(BincodeValue(e.de))
    ensures e.Custom? ==> Source(e) == Some(NcValue(e))
  {
  }

  /**
   * One step along the chain of causes. A foreign error is a leaf here: its
   * own `source()` is not part of this model.
   */
  function SourceStep(v: ErrorValue, corrected: bool): Option<ErrorValue> {
    match v
    case NcValue(e) => if corrected then SourceCorrected(e) else Source(e)
    case _ => None
  }

  /** Where a reporter that follows `source()` `k` times ends up, if anywhere. */
  function SourceWalk(v: ErrorValue, k: nat, corrected: bool): Option<ErrorValue>
    decreases k
  {
    if k == 0 then Some(v)
    else match SourceStep(v, corrected)
      case None => None
      case Some(w) => SourceWalk(w, k - 1, corrected)
  }

  /** As written, following `source()` from a `Custom` error never ends. */
  lemma {:induction false} CustomSourceWalkNeverEnds(n: u32, k: nat)
    ensures SourceWalk(NcValue(Custom(n)), k, false) == Some(NcValue(Custom(n)))
    decreases k
  {
    if k > 0 {
      CustomSourceWalkNeverEnds(n, k - 1);
    }
  }

  /** With the corrected `source()`, every chain of causes ends within two steps. */
  lemma CorrectedSourceWalkEnds(e: NCError, k: nat)
    requires k >= 2
    ensures SourceWalk(NcValue(e), k, true) == None
  {
  }

  // ---------------------------------------------------------------------
  // From conversions
  // ---------------------------------------------------------------------

  /** `impl From<io::Error> for NCError`. */
  function FromIoError(e: IoError): NCError {
    IOError(e)
  }

  /** `impl From<net::AddrParseError> for NCError`. */
  function FromAddrParseError(e: AddrParseError): NCError {
    IPAddrParse(e)
  }

  /** A converted error keeps the foreign error as its source and shows its text. */
  lemma FromIoErrorRoundTrip(e: IoError)
    ensures FromIoError(e).IOError?
    ensures Source(FromIoError(e)) == Some(IoValue(e))
    ensures Display(FromIoError(e)) == IO_ERROR_PREFIX + e.text
  {
  }

  /** A converted error keeps the foreign error as its source and shows its text. */
  lemma FromAddrParseErrorRoundTrip(e: AddrParseError)
    ensures FromAddrParseError(e).IPAddrParse?
    ensures Source(FromAddrParseError(e)) == Some(AddrParseValue(e))
    ensures Display(FromAddrParseError(e)) == IP_ADDR_PARSE_PREFIX + e.text
  {
  }
}
