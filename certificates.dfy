/**
 * What the signing tab does with a certificate file apart from drawing: accepting it by
 * its name, classifying it by extension, the info text shown after upload and the signer
 * identity used on the signature box. node-forge itself is abstract: a `CertDecoders`
 * value says what decoding given bytes (and password) yields.
 */
module Certificates {
  import opened Wrappers
  import opened JsStrings

  /** The certificate fields the component reads. A field node-forge does not have is the
      empty string, since every read is `getField(..)?.value || ...`. Validity bounds are
      already formatted with `toLocaleDateString`. */
  datatype CertFields = CertFields(
    commonName: string,        // subject CN
    givenName: string,         // subject GN
    sn: string,                // subject SN
    surname: string,           // subject "surname"
    issuerCommonName: string,  // issuer CN
    notBefore: string,
    notAfter: string)

  /** Decoding a PKCS#12 container with a password: it throws (bad password, corrupt bytes),
      or it decodes but holds no certificate bag, or it yields the first certificate. */
  datatype P12Outcome = P12Error | NoCertBag | P12Cert(fields: CertFields)

  /** node-forge as the component uses it: DER + PKCS#12 decoding with a password, and
      UTF-8 + PEM decoding (None when `certificateFromPem` throws). */
  datatype CertDecoders = CertDecoders(
    decodeP12: (seq<bv8>, string) -> P12Outcome,
    decodePem: seq<bv8> -> Option<CertFields>)
  {
    function DecodeP12(bytes: seq<bv8>, password: string): P12Outcome { decodeP12(bytes, password) }
    function DecodePem(bytes: seq<bv8>): Option<CertFields> { decodePem(bytes) }
  }

  /** An uploaded file: its name and its bytes (None when `file.arrayBuffer()` rejects). */
  datatype CertFile = CertFile(name: string, content: Option<seq<bv8>>)

  /** The upload filter: a case-sensitive suffix test. */
  predicate HasCertSuffix(name: string) {
    EndsWith(name, ".p12") || EndsWith(name, ".pfx") || EndsWith(name, ".pem") || EndsWith(name, ".crt")
  }

  /** `name.split('.').pop()?.toLowerCase()`. */
  function Extension(name: string): (r: string)
    ensures |r| <= |name|
    ensures forall i :: 0 <= i < |r| ==> !IsUpper(r[i])
  {
    ToLower(AfterLastDot(name))
  }

  /** `split('.').pop()`: the text after the last '.', or all of `s` when it has none. */
  function AfterLastDot(s: string): (r: string)
    ensures |r| <= |s| && r == s[|s| - |r|..]
    ensures '.' !in r
    ensures |r| < |s| ==> s[|s| - |r| - 1] == '.'
  {
    if s == [] then []
    else if s[|s| - 1] == '.' then []
    else AfterLastDot(s[..|s| - 1]) + [s[|s| - 1]]
  }

  datatype CertFormat = Pkcs12 | Pem | Unsupported

  /** `p12`/`pfx` take the PKCS#12 branch, `pem`/`crt` the PEM branch, anything else neither. */
  function Classify(extension: string): CertFormat {
    if extension == "p12" || extension == "pfx" then Pkcs12
    else if extension == "pem" || extension == "crt" then Pem
    else Unsupported
  }

  /** A name ending in "." + `ext`, where `ext` has no dot, has extension text `ext`. */
  lemma AfterLastDotOfSuffix(s: string, ext: string)
    requires '.' !in ext
    requires EndsWith(s, "." + ext)
    ensures AfterLastDot(s) == ext
  {
    var r := AfterLastDot(s);
    var start := |s| - |r|;
    var dotAt := |s| - |ext| - 1;
    var tail := s[dotAt..];
    assert tail == "." + ext;
    assert s[dotAt] == tail[0] == '.';
    forall j | start <= j < |s| ensures s[j] != '.' {
      assert s[j] == r[j - start];
    }
    forall j | dotAt < j < |s| ensures s[j] != '.' {
      assert s[j] == tail[j - dotAt] == ext[j - dotAt - 1];
    }
    assert start == dotAt + 1;
    assert r == tail[1..] == ext;
  }

  /** Every accepted file is classified: the suffix the filter saw is the extension. */
  lemma AcceptedFileClassified(name: string)
    requires HasCertSuffix(name)
    ensures Classify(Extension(name)) == (if EndsWith(name, ".p12") || EndsWith(name, ".pfx")
                                          then Pkcs12 else Pem)
  {
    var ext: string;
    if EndsWith(name, ".p12") {
      ext := "p12";
    } else if EndsWith(name, ".pfx") {
      ext := "pfx";
    } else if EndsWith(name, ".pem") {
      ext := "pem";
    } else {
      ext := "crt";
    }
    assert "." + ext == ['.', ext[0], ext[1], ext[2]];
    AfterLastDotOfSuffix(name, ext);
    ToLowerUnchanged(ext);
    assert Extension(name) == ext;
  }

  /** The filter is case-sensitive while the classification lowercases: "CERT.P12" is
      refused on upload although its extension reads as PKCS#12. */
  lemma UpperCaseSuffixRefused()
    ensures !HasCertSuffix("CERT.P12") && Classify(Extension("CERT.P12")) == Pkcs12
  {
    AfterLastDotOfSuffix("CERT.P12", "P12");
    assert "CERT.P12"[4..] == ".P12";
  }

  /** `a || b` on strings: `a` unless it is empty. */
  function OrElse(a: string, b: string): (r: string)
    ensures r == a || r == b
    ensures r != "" <==> a != "" || b != ""
  {
    if a != "" then a else b
  }

  /** The identity `signPdf` draws: signer name, subject, issuer and validity strings. */
  datatype Signer = Signer(name: string, subject: string, issuer: string,
                           validFrom: string, validTo: string)

  /** The values `signPdf` starts from; a PEM or CRT file is never parsed and keeps them. */
  const Unparsed := Signer("", "Unknown", "Unknown Issuer", "", "")

  /** The identity taken from a parsed PKCS#12 certificate. */
  function SignerFromCert(f: CertFields): (r: Signer)
    ensures r.name != "" && r.subject != "" && r.issuer != ""
    ensures r.validFrom == f.notBefore && r.validTo == f.notAfter
  {
    var subject := OrElse(f.commonName, "Unknown");
    var issuer := OrElse(f.issuerCommonName, "Unknown Issuer");
    var commonName := OrElse(f.commonName, "");
    var givenName := OrElse(f.givenName, "");
    var surname := OrElse(f.sn, OrElse(f.surname, ""));
    var name := if givenName != "" && surname != "" then givenName + " " + surname
                else if commonName == "" then subject
                else commonName;
    Signer(name, subject, issuer, f.notBefore, f.notAfter)
  }

  /** The signer-name fallback chain: "GN SN" when both are present (SN falling back to
      "surname"), else the CN, else "Unknown"; subject and issuer default to "Unknown" and
      "Unknown Issuer"; so none of them is ever empty. */
  lemma SignerNameChain(f: CertFields)
    ensures var s := SignerFromCert(f);
            var sn := if f.sn != "" then f.sn else f.surname;
            && s.name == (if f.givenName != "" && sn != "" then f.givenName + " " + sn
                          else if f.commonName != "" then f.commonName
                          else "Unknown")
            && s.name != "" && s.subject != "" && s.issuer != ""
            && s.subject == (if f.commonName != "" then f.commonName else "Unknown")
            && s.issuer == (if f.issuerCommonName != "" then f.issuerCommonName else "Unknown Issuer")
            && s.validFrom == f.notBefore && s.validTo == f.notAfter
  {
  }

  /** The info text shown after a successful parse. */
  function CertificateSummary(f: CertFields): string {
    "Issuer: " + OrElse(f.issuerCommonName, "Unknown") + "\n"
    + "Subject: " + OrElse(f.commonName, "Unknown") + "\n"
    + "Valid From: " + f.notBefore + "\n"
    + "Valid To: " + f.notAfter
  }

  /** The info text shows the identity signing will use, except that a missing issuer reads
      "Unknown" there and "Unknown Issuer" on the signature. */
  lemma SummaryShowsSigner(f: CertFields)
    ensures var s := SignerFromCert(f);
            CertificateSummary(f)
              == "Issuer: " + (if f.issuerCommonName == "" then "Unknown" else s.issuer)
                 + "\nSubject: " + s.subject + "\nValid From: " + s.validFrom
                 + "\nValid To: " + s.validTo
  {
  }

  const EnterPasswordMessage := "Enter password to view certificate details"
  const CouldNotParseMessage := "Could not parse certificate"
  const ReadErrorMessage := "Error reading certificate"
}
