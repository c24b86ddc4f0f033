/**
 * The employee-certificate tab: the user uploads a certificate file, optionally types its
 * password, and signs the loaded PDF, which draws a visual signature box on its first
 * page, re-saves the document and republishes it under a fresh blob URL.
 */
module EmployeeCertTab {
  import opened Wrappers
  import opened JsStrings
  import opened PdfModel
  import opened Certificates
  import opened SignatureLayout

  /** Browser readings one signing uses: the URL `URL.createObjectURL` returns for the new
      blob, `Date.now()`, `new Date().toLocaleDateString()` and `new Date().toISOString()`. */
  datatype Browser = Browser(objectUrl: string, nowMillis: nat, localeDate: string, isoNow: string)

  /** How `signPdf` ends, one case per alert it can raise. */
  datatype SignOutcome =
    | PdfNotLoaded         // "Please wait for the PDF to load first."
    | NoCertificate        // "Please select a certificate file first."
    | PasswordRequired     // a PKCS#12 file and an empty password
    | CertificateRejected  // the PKCS#12 container failed to decode or had no certificate
    | SigningFailed        // reading the file, loading the PDF, a PDF without pages, or a
                           // text the standard font cannot encode
    | Signed(revoked: Option<string>, downloadName: string)

  /** The signer identity a signing attempt arrives at before touching the PDF. */
  datatype SignerResolution = NeedPassword | Rejected | Resolved(signer: Signer)

  /** The identity step of `signPdf`: PKCS#12 files need a password and a certificate,
      other files keep the initial values (an empty name). */
  function ResolveSigner(fileName: string, bytes: seq<bv8>, password: string,
                         decoders: CertDecoders): SignerResolution
  {
    if Classify(Extension(fileName)) != Pkcs12 then Resolved(Unparsed)
    else if password == "" then NeedPassword
    else match decoders.DecodeP12(bytes, password)
         case P12Cert(f) => Resolved(SignerFromCert(f))
         case _ => Rejected
  }

  /** A resolved signer has a name exactly when the file was a PKCS#12 container. */
  lemma ResolvedSignerNamed(fileName: string, bytes: seq<bv8>, password: string,
                            decoders: CertDecoders)
    ensures var res := ResolveSigner(fileName, bytes, password, decoders);
            res.Resolved? ==> (res.signer.name != "" <==> Classify(Extension(fileName)) == Pkcs12)
    ensures ResolveSigner(fileName, bytes, password, decoders) == NeedPassword
            <==> Classify(Extension(fileName)) == Pkcs12 && password == ""
  {
    if Classify(Extension(fileName)) == Pkcs12 && password != "" {
      match decoders.DecodeP12(bytes, password)
      case P12Cert(f) => SignerNameChain(f);
      case _ =>
    }
  }

  /** Loading the PDF, drawing the box on its first page and saving it. None when loading
      throws, when the document has no page (`pages[0]` is then undefined), or when one of
      the box's texts cannot be encoded by the standard font (that `drawText` throws). */
  function RenderSigned(pdf: seq<bv8>, signer: Signer, lib: PdfLib, date: string): (r: Option<seq<bv8>>)
    ensures r.Some? <==>
              && lib.Load(pdf).Some? && |lib.Load(pdf).value.pages| > 0
              && Drawable(lib, SignatureBoxOps(lib.Load(pdf).value.pages[0].height,
                                               signer.name, date, signer.validTo))
    ensures r.Some? ==>
              r.value == lib.Save(StampFirstPage(lib.Load(pdf).value, signer.name, date, signer.validTo))
  {
    match lib.Load(pdf)
    case None => None
    case Some(doc) =>
      if |doc.pages| == 0 then None
      else if !Drawable(lib, SignatureBoxOps(doc.pages[0].height, signer.name, date, signer.validTo)) then None
      else Some(lib.Save(StampFirstPage(doc, signer.name, date, signer.validTo)))
  }

  /** A signer name the standard font cannot encode makes signing fail, whatever the PDF:
      the name is drawn in the name panel. */
  lemma UnencodableNameFails(pdf: seq<bv8>, signer: Signer, lib: PdfLib, date: string)
    requires !lib.Encodable(signer.name)
    ensures RenderSigned(pdf, signer, lib, date) == None
  {
    var loaded := lib.Load(pdf);
    if loaded.Some? && |loaded.value.pages| > 0 {
      var h := loaded.value.pages[0].height;
      if Drawable(lib, SignatureBoxOps(h, signer.name, date, signer.validTo)) {
        SignerNameDrawn(lib, h, signer.name, date, signer.validTo);
      }
    }
  }

  /** When pdf-lib reads back what it saved, signing the signed bytes again stacks a second
      box on the first page over the first box, and leaves the other pages alone. */
  lemma RepeatedSigningStacks(pdf: seq<bv8>, lib: PdfLib, first: Signer, second: Signer,
                              date1: string, date2: string)
    requires forall d :: lib.Load(lib.Save(d)) == Some(d)
    requires RenderSigned(pdf, first, lib, date1).Some?
    requires RenderSigned(pdf, second, lib, date2).Some?
    ensures var doc := lib.Load(pdf).value;
            var h := doc.pages[0].height;
            var again := RenderSigned(RenderSigned(pdf, first, lib, date1).value, second, lib, date2);
            again.Some?
            && lib.Load(again.value).value.pages[0].drawn
               == doc.pages[0].drawn + SignatureBoxOps(h, first.name, date1, first.validTo)
                  + SignatureBoxOps(h, second.name, date2, second.validTo)
            && lib.Load(again.value).value.pages[1..] == doc.pages[1..]
  {
    var doc := lib.Load(pdf).value;
    var once := StampFirstPage(doc, first.name, date1, first.validTo);
    assert lib.Load(lib.Save(once)) == Some(once);
    var twice := StampFirstPage(once, second.name, date2, second.validTo);
    assert lib.Load(lib.Save(twice)) == Some(twice);
    StampStacks(doc, (first.name, date1, first.validTo), (second.name, date2, second.validTo));
  }

  /** The download name: `signed_<name with white-space runs as '_'>_<ISO date>.pdf`. */
  function DownloadName(signerName: string, isoNow: string): string {
    "signed_" + ReplaceSpaceRuns(signerName, '_') + "_" + Take(isoNow, 10) + ".pdf"
  }

  /** The download name has the fixed prefix and suffix, keeps a white-space-free signer
      name as it is, and carries no white space when the ISO timestamp has none. */
  lemma DownloadNameShape(signerName: string, isoNow: string)
    ensures var r := DownloadName(signerName, isoNow);
            StartsWith(r, "signed_") && EndsWith(r, ".pdf")
            && (IsSpaceFree(isoNow) ==> IsSpaceFree(r))
            && (IsSpaceFree(signerName) ==> r == "signed_" + signerName + "_" + Take(isoNow, 10) + ".pdf")
  {
    var r := DownloadName(signerName, isoNow);
    var middle := ReplaceSpaceRuns(signerName, '_');
    assert r == "signed_" + (middle + "_" + Take(isoNow, 10) + ".pdf");
    assert r == ("signed_" + middle + "_" + Take(isoNow, 10)) + ".pdf";
    if IsSpaceFree(signerName) {
      ReplaceSpaceRunsIdentity(signerName, '_');
    }
    if IsSpaceFree(isoNow) {
      var date := Take(isoNow, 10);
      assert forall i :: 0 <= i < |date| ==> date[i] == isoNow[i];
    }
  }

  /** A PKCS#12 signer named "<given name> <surname>", each part free of white space, is
      downloaded as `signed_<given name>_<surname>_<date>.pdf`. */
  lemma FullNameDownloadName(givenName: string, surname: string, isoNow: string)
    requires givenName != "" && surname != ""
    requires IsSpaceFree(givenName) && IsSpaceFree(surname)
    ensures DownloadName(givenName + " " + surname, isoNow)
            == "signed_" + givenName + "_" + surname + "_" + Take(isoNow, 10) + ".pdf"
  {
    ReplaceSpaceRunsJoin(givenName, " ", surname, '_');
    ReplaceSpaceRunsIdentity(givenName, '_');
    ReplaceSpaceRunsIdentity(surname, '_');
    assert ReplaceSpaceRuns(givenName + " " + surname, '_') == givenName + "_" + surname;
  }

  /** A PEM or CRT signature has no signer name, so its download name has two underscores
      in a row. */
  lemma NamelessDownloadName(isoNow: string)
    ensures DownloadName(Unparsed.name, isoNow) == "signed__" + Take(isoNow, 10) + ".pdf"
  {
    assert ReplaceSpaceRuns("", '_') == "";
  }

  /** No character is white space. */
  predicate IsSpaceFree(s: string) {
    forall i :: 0 <= i < |s| ==> !IsSpace(s[i])
  }

  /** The URL stored after signing: the new object URL with a `#<Date.now()>` fragment. */
  function PublishedUrl(objectUrl: string, nowMillis: nat): (r: string)
    ensures StartsWith(r, objectUrl) && |r| > |objectUrl| + 1 && r[|objectUrl|] == '#'
  {
    objectUrl + "#" + NatToString(nowMillis)
  }

  /** The URL handed to `URL.revokeObjectURL`: the current one, when it is a blob URL. */
  function RevokedUrl(current: string): Option<string> {
    if StartsWith(current, "blob:") then Some(current) else None
  }

  /** The static PDF is never revoked; a published blob URL is revoked, as stored, by the
      next successful signing. */
  lemma PublishedUrlRevokedNext(objectUrl: string, nowMillis: nat)
    requires StartsWith(objectUrl, "blob:")
    ensures RevokedUrl(PublishedUrl(objectUrl, nowMillis)) == Some(PublishedUrl(objectUrl, nowMillis))
    ensures RevokedUrl("assets/fisa.pdf") == None
  {
    var url := PublishedUrl(objectUrl, nowMillis);
    assert url[..5] == objectUrl[..5];
    assert "assets/fisa.pdf"[..5] != "blob:" by {
      assert "assets/fisa.pdf"[..5][0] == 'a';
    }
  }

  /** The certificate-info text after reading `file` with the given password. A PKCS#12
      container that decodes but holds no certificate leaves the text as it was. */
  function InfoText(current: string, file: CertFile, password: string, decoders: CertDecoders): string {
    match file.content
    case None => ReadErrorMessage
    case Some(bytes) =>
      match Classify(Extension(file.name))
      case Pkcs12 => Pkcs12InfoText(current, bytes, password, decoders)
      case Pem => PemInfoText(bytes, decoders)
      case Unsupported => current
  }

  /** The info text for a PKCS#12 container: it can only be decoded with a password. */
  function Pkcs12InfoText(current: string, bytes: seq<bv8>, password: string, decoders: CertDecoders): string {
    if password == "" then EnterPasswordMessage
    else match decoders.DecodeP12(bytes, password)
         case P12Error => EnterPasswordMessage
         case NoCertBag => current
         case P12Cert(f) => CertificateSummary(f)
  }

  /** The info text for a PEM or CRT file. */
  function PemInfoText(bytes: seq<bv8>, decoders: CertDecoders): string {
    match decoders.DecodePem(bytes)
    case None => CouldNotParseMessage
    case Some(f) => CertificateSummary(f)
  }

  /** When the info text shows a PKCS#12 certificate, signing with the same password resolves
      that certificate's identity: the panel and the signature agree on the subject. */
  lemma InfoAgreesWithSigning(current: string, file: CertFile, password: string,
                              decoders: CertDecoders, f: CertFields)
    requires file.content.Some? && Classify(Extension(file.name)) == Pkcs12 && password != ""
    requires decoders.DecodeP12(file.content.value, password) == P12Cert(f)
    ensures InfoText(current, file, password, decoders) == CertificateSummary(f)
    ensures ResolveSigner(file.name, file.content.value, password, decoders)
            == Resolved(SignerFromCert(f))
  {
    var bytes := file.content.value;
    assert InfoText(current, file, password, decoders) == Pkcs12InfoText(current, bytes, password, decoders);
    assert Pkcs12InfoText(current, bytes, password, decoders) == CertificateSummary(f);
  }

  /** The PDF part of `signPdf`: load the bytes, draw the box on the first page object,
      save. None when loading throws, there is no first page, or a text of the box cannot
      be encoded. The first such `drawText` throws and the half-drawn document is never
      saved, so checking the texts before drawing gives the same result. */
  method DrawSignature(pdf: seq<bv8>, signer: Signer, lib: PdfLib, date: string)
    returns (signed: Option<seq<bv8>>)
    ensures signed == RenderSigned(pdf, signer, lib, date)
    ensures signed.Some? ==> lib.Encodable(signer.name)
  {
    var loaded := lib.Load(pdf);
    if loaded.None? || |loaded.value.pages| == 0 {
      return None;
    }
    var doc := loaded.value;
    if !Drawable(lib, SignatureBoxOps(doc.pages[0].height, signer.name, date, signer.validTo)) {
      return None;
    }
    var firstPage := new PdfPage(doc.pages[0]);
    RenderSignatureBox(firstPage, signer.name, date, signer.validTo);
    var signedDoc := WithFirstPage(doc, firstPage.Snapshot());
    assert signedDoc == StampFirstPage(doc, signer.name, date, signer.validTo);
    signed := Some(lib.Save(signedDoc));
    SignerNameDrawn(lib, doc.pages[0].height, signer.name, date, signer.validTo);
  }

  /** The component's state. */
  class EmployeeCertTabComponent {
    var pdfUrl: string
    var pdfBytes: Option<seq<bv8>>
    var certificateFile: Option<CertFile>
    var certificatePassword: string
    var isSigning: bool
    var certificateInfo: string

    /** A stored certificate file always passed the upload filter. */
    predicate Valid()
      reads this
    {
      certificateFile.Some? ==> HasCertSuffix(certificateFile.value.name)
    }

    /** The static PDF is shown; its bytes arrive later through `LoadPdfBytes`. */
    constructor ()
      ensures Valid()
      ensures pdfUrl == "assets/fisa.pdf" && pdfBytes == None && certificateFile == None
      ensures certificatePassword == "" && !isSigning && certificateInfo == ""
    {
      pdfUrl := "assets/fisa.pdf";
      pdfBytes := None;
      certificateFile := None;
      certificatePassword := "";
      isSigning := false;
      certificateInfo := "";
    }

    /** Completion of `loadPdfBytes`: the fetched bytes, or nothing when the fetch failed. */
    method LoadPdfBytes(response: Option<seq<bv8>>)
      modifies this`pdfBytes
      ensures pdfBytes == if response.Some? then response else old(pdfBytes)
    {
      if response.Some? {
        pdfBytes := response;
      }
    }

    /** `extractCertificateInfo`: sets the info text from the file's contents. */
    method ExtractCertificateInfo(file: CertFile, decoders: CertDecoders)
      modifies this`certificateInfo
      ensures certificateInfo == InfoText(old(certificateInfo), file, certificatePassword, decoders)
    {
      if file.content.None? {
        certificateInfo := ReadErrorMessage;
        return;
      }
      var bytes := file.content.value;
      var format := Classify(Extension(file.name));
      if format == Pkcs12 {
        ReadPkcs12Info(bytes, decoders);
      } else if format == Pem {
        ReadPemInfo(bytes, decoders);
      }
    }

    /** The PKCS#12 branch of `extractCertificateInfo`: without a password, or when decoding
        throws, the user is asked for the password; a container without a certificate bag
        leaves the text as it was. */
    method ReadPkcs12Info(bytes: seq<bv8>, decoders: CertDecoders)
      modifies this`certificateInfo
      ensures certificateInfo == Pkcs12InfoText(old(certificateInfo), bytes, certificatePassword, decoders)
    {
      if certificatePassword == "" {
        certificateInfo := EnterPasswordMessage;
        return;
      }
      var decoded := decoders.DecodeP12(bytes, certificatePassword);
      if decoded.P12Cert? {
        certificateInfo := CertificateSummary(decoded.fields);
      } else if decoded.P12Error? {
        certificateInfo := EnterPasswordMessage;
      }
    }

    /** The PEM/CRT branch of `extractCertificateInfo`. */
    method ReadPemInfo(bytes: seq<bv8>, decoders: CertDecoders)
      modifies this`certificateInfo
      ensures certificateInfo == PemInfoText(bytes, decoders)
    {
      var cert := decoders.DecodePem(bytes);
      if cert.Some? {
        certificateInfo := CertificateSummary(cert.value);
      } else {
        certificateInfo := CouldNotParseMessage;
      }
    }

    /** `onCertificateFileSelected`: a file whose name passes the case-sensitive suffix
        filter is stored and read; anything else (or no file) changes nothing. */
    method OnCertificateFileSelected(file: Option<CertFile>, decoders: CertDecoders)
      returns (accepted: bool)
      requires Valid()
      modifies this`certificateFile, this`certificateInfo
      ensures Valid()
      ensures accepted <==> file.Some? && HasCertSuffix(file.value.name)
      ensures certificateFile == if accepted then file else old(certificateFile)
      ensures certificateInfo
              == if accepted then InfoText(old(certificateInfo), file.value, certificatePassword, decoders)
                 else old(certificateInfo)
    {
      accepted := file.Some? && HasCertSuffix(file.value.name);
      if accepted {
        certificateFile := file;
        ExtractCertificateInfo(file.value, decoders);
      }
    }

    /** The publish step of `signPdf`: the signed bytes replace the old ones, the current URL
        is revoked when it is a blob URL, and the new object URL is stored with a
        `#<Date.now()>` fragment. Returns the revoked URL. */
    method Publish(signedBytes: seq<bv8>, browser: Browser) returns (revoked: Option<string>)
      modifies this`pdfBytes, this`pdfUrl
      ensures pdfBytes == Some(signedBytes)
      ensures pdfUrl == PublishedUrl(browser.objectUrl, browser.nowMillis)
      ensures revoked == RevokedUrl(old(pdfUrl))
    {
      pdfBytes := Some(signedBytes);
      revoked := None;
      if StartsWith(pdfUrl, "blob:") {
        revoked := Some(pdfUrl);
      }
      pdfUrl := browser.objectUrl + "#" + NatToString(browser.nowMillis);
    }

    /** The identity step of `signPdf`: start from the default values and, for a PKCS#12
        file, demand a password and take the identity from its certificate. */
    method ParseSigner(fileName: string, bytes: seq<bv8>, decoders: CertDecoders)
      returns (resolution: SignerResolution)
      ensures resolution == ResolveSigner(fileName, bytes, certificatePassword, decoders)
    {
      var signer := Unparsed;
      if Classify(Extension(fileName)) == Pkcs12 {
        if certificatePassword == "" {
          return NeedPassword;
        }
        var decoded := decoders.DecodeP12(bytes, certificatePassword);
        if !decoded.P12Cert? {
          return Rejected;
        }
        signer := SignerFromCert(decoded.fields);
      }
      resolution := Resolved(signer);
    }

    /** `signPdf`. Two guards return before `isSigning` is raised; every later exit lowers
        it. Only a successful signing replaces the PDF bytes and URL. */
    method SignPdf(decoders: CertDecoders, lib: PdfLib, browser: Browser)
      returns (outcome: SignOutcome)
      requires Valid()
      modifies this`pdfBytes, this`pdfUrl, this`isSigning
      ensures Valid()
      ensures outcome.PdfNotLoaded? <==> old(pdfBytes).None?
      ensures outcome.NoCertificate? <==> old(pdfBytes).Some? && certificateFile.None?
      ensures isSigning == (old(isSigning) && (outcome.PdfNotLoaded? || outcome.NoCertificate?))
      ensures outcome.Signed? || (pdfBytes == old(pdfBytes) && pdfUrl == old(pdfUrl))
      ensures old(pdfBytes).Some? && certificateFile.Some? ==>
        var file := certificateFile.value;
        match file.content
        case None => outcome == SigningFailed
        case Some(bytes) =>
          match ResolveSigner(file.name, bytes, certificatePassword, decoders)
          case NeedPassword => outcome == PasswordRequired
          case Rejected => outcome == CertificateRejected
          case Resolved(signer) =>
            match RenderSigned(old(pdfBytes).value, signer, lib, browser.localeDate)
            case None => outcome == SigningFailed
            case Some(signed) =>
              && outcome == Signed(RevokedUrl(old(pdfUrl)), DownloadName(signer.name, browser.isoNow))
              && pdfBytes == Some(signed)
              && pdfUrl == PublishedUrl(browser.objectUrl, browser.nowMillis)
    {
      if pdfBytes.None? {
        return PdfNotLoaded;
      }
      if certificateFile.None? {
        return NoCertificate;
      }
      isSigning := true;

      var file := certificateFile.value;
      if file.content.None? {
        isSigning := false;
        return SigningFailed;
      }
      var bytes := file.content.value;
      var resolution := ParseSigner(file.name, bytes, decoders);
      if resolution.NeedPassword? {
        isSigning := false;
        return PasswordRequired;
      }
      if resolution.Rejected? {
        isSigning := false;
        return CertificateRejected;
      }
      var signer := resolution.signer;

      var signed := DrawSignature(pdfBytes.value, signer, lib, browser.localeDate);
      if signed.None? {
        isSigning := false;
        return SigningFailed;
      }
      var revoked := Publish(signed.value, browser);
      outcome := Signed(revoked, DownloadName(signer.name, browser.isoNow));
      isSigning := false;
    }
  }
}
