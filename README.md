# Ehs-app front end, modelled in Dafny

This project models the client-side core of the Ehs-app Angular application (`angular-login-app`):

- **Employee-certificate tab.** The user uploads a certificate file (`.p12`, `.pfx`, `.pem` or `.crt`). The tab shows the certificate's details. Signing draws a fixed visual signature box on the first page of the loaded PDF, saves the document, and republishes it under a fresh blob URL with a download name derived from the signer.
- **`AuthService`.** A two-state login session (`admin`/`123` only) that is mirrored into the browser's key/value storage.
- **`TrainingService`.** A training catalog with fresh-id allocation (`max(ids, 0) + 1`), append, and first-match lookup.
- **Trainings tab.** A case-insensitive substring search over the catalog, plus a details modal.
- **Main page and training tab.** The English/Romanian translation tables with key fallback, the login check on start-up, and the per-video progress state machine (`not-started` → `in-progress` → `finished`).

## Files and modules

| file | module | what |
|---|---|---|
| `wrappers.dfy` | `Wrappers` | `Option` |
| `sublists.dfy` | `Sublists` | Order-preserving sub-sequences, as `filter` produces them. |
| `js_strings.dfy` | `JsStrings` | The JavaScript string operations the components use: `includes`, `toLowerCase`, `trim`, `replace(/\s+/g, …)`, `slice`, number to decimal string. |
| `pdf_model.dfy` | `PdfModel` | pdf-lib as data. A page is its size and the list of drawing operations applied to it. `PdfPage` is the mutable page object. Loading, saving and the standard font's encodability test are function-valued fields. |
| `signature_layout.dfy` | `SignatureLayout` | The signature-box template: its constants, detail lines and drawing methods. |
| `certificates.dfy` | `Certificates` | node-forge as function-valued fields, the file-type classification, the signer-name fallback chain and the info text. |
| `employeecert_tab.dfy` | `EmployeeCertTab` | The certificate tab's component class and `signPdf`. |
| `auth_service.dfy` | `Auth` | `KeyValueStore` (`localStorage`) and `AuthService`. |
| `training_service.dfy` | `Trainings` | The `Training` record, id allocation, lookup and `TrainingService`. |
| `trainings_tab.dfy` | `TrainingsTab` | The search filter and `TrainingsTabComponent`. |
| `video_progress.dfy` | `VideoProgress` | The video status dictionary and its two transitions. |
| `training_tab.dfy` | `TrainingTab` | `TrainingTabComponent`. |
| `main_component.dfy` | `MainPage` | The translation tables, `translate` and `MainComponent`. |

Conventions:

- Methods return what the source reports through `alert`, `router.navigate` or a download as out-parameters: `SignOutcome`, `redirectToLogin` and the download name.
- The source's `type` field of a training is `kind` here, because `type` is a Dafny keyword.
- A page coordinate is a `real`, because pdf-lib page sizes need not be whole numbers.

Facts about the code that the model keeps:

- The code has a single signing path: the loaded PDF (`assets/fisa.pdf`, or the bytes of the last signing) gets the compact 170×100 box on its first page. There is no catalog or export signing path and no large layout variant.
- When a PKCS#12 certificate has no CN and not both a given name and a surname (SN, else `surname`), the signer name is the literal `"Unknown"`; a certificate with only a given name is one such case.
- `signPdf` never checks `isSigning`, and nothing discards the result of an earlier signing attempt.

## Model

Source paths are relative to the repository root.

| member | source | states |
|---|---|---|
| JsStrings.IncludesIffOccurs | angular-login-app/src/app/tabs/trainings-tab/trainings-tab.component.ts:40-43 | The left-to-right `includes` scan succeeds exactly when the needle occurs at some index of the haystack. |
| JsStrings.StartsWith | angular-login-app/src/app/tabs/employeecert-tab/employeecert-tab.component.ts:320 | `startsWith`: the string begins with the prefix, character for character. Used for the bold `Signed by:` line and the `blob:` test. |
| JsStrings.EndsWith | angular-login-app/src/app/tabs/employeecert-tab/employeecert-tab.component.ts:51 | `endsWith`: the string ends with the suffix, character for character and case-sensitively. Used by the upload filter. |
| JsStrings.Includes | angular-login-app/src/app/tabs/trainings-tab/trainings-tab.component.ts:41-43 | `includes`: a left-to-right scan for the needle. IncludesIffOccurs states its meaning. |
| JsStrings.LowerChar | angular-login-app/src/app/tabs/trainings-tab/trainings-tab.component.ts:39 | `toLowerCase` on one character never yields an upper-case letter and leaves every other character unchanged. |
| JsStrings.ToLower | angular-login-app/src/app/tabs/trainings-tab/trainings-tab.component.ts:39 | `toLowerCase` works character by character and keeps the length. ToLowerIdempotent states that no upper-case letter is left. |
| JsStrings.ToLowerIdempotent | angular-login-app/src/app/tabs/employeecert-tab/employeecert-tab.component.ts:63 | A lower-cased string has no upper-case letter, and lower-casing it again changes nothing. |
| JsStrings.ToLowerUnchanged | angular-login-app/src/app/tabs/employeecert-tab/employeecert-tab.component.ts:63 | A string with no upper-case letter is its own lower-case form (so `p12`, `pfx`, `pem`, `crt` classify as written). |
| JsStrings.TrimStart | angular-login-app/src/app/tabs/trainings-tab/trainings-tab.component.ts:34 | The result is a suffix of the input that does not start with white space, and everything removed is white space. |
| JsStrings.TrimEnd | angular-login-app/src/app/tabs/trainings-tab/trainings-tab.component.ts:34 | The result is a prefix of the input that does not end with white space, and everything removed is white space. |
| JsStrings.Trim | angular-login-app/src/app/tabs/trainings-tab/trainings-tab.component.ts:34 | `trim()` is no longer than its input and neither starts nor ends with white space. |
| JsStrings.TrimEmptyIffBlank | angular-login-app/src/app/tabs/trainings-tab/trainings-tab.component.ts:34 | `trim()` is empty (falsy) exactly when every character is white space. |
| JsStrings.ReplaceSpaceRuns | angular-login-app/src/app/tabs/employeecert-tab/employeecert-tab.component.ts:382 | `replace(/\s+/g, sep)` leaves no white space and never lengthens the text. |
| JsStrings.ReplaceSpaceRunsIdentity | angular-login-app/src/app/tabs/employeecert-tab/employeecert-tab.component.ts:382 | Text without white space is left as it is. |
| JsStrings.ReplaceSpaceRunsJoin | angular-login-app/src/app/tabs/employeecert-tab/employeecert-tab.component.ts:382 | A maximal run of white space between two non-space ends becomes exactly one separator, and the text on each side is replaced on its own. |
| JsStrings.Take | angular-login-app/src/app/tabs/employeecert-tab/employeecert-tab.component.ts:382 | `slice(0, n)` is the prefix of length n, or the whole string when it is shorter. |
| JsStrings.NatToString | angular-login-app/src/app/tabs/employeecert-tab/employeecert-tab.component.ts:375 | The decimal form of a number is non-empty, all digits, and starts with `0` only for zero, whose form is exactly `0`. |
| JsStrings.NatToStringRoundTrip | angular-login-app/src/app/tabs/trainings-tab/trainings-tab.component.ts:43 | Reading the decimal digits back gives the number. |
| JsStrings.IntToString | angular-login-app/src/app/tabs/trainings-tab/trainings-tab.component.ts:43 | `id.toString()` is non-empty, starts with `-` exactly for a negative id, and is otherwise decimal digits. |
| PdfModel.PdfPage.constructor | angular-login-app/src/app/tabs/employeecert-tab/employeecert-tab.component.ts:208-211 | The first-page object starts as the loaded page: same size, same drawing. |
| PdfModel.PdfPage.Draw | angular-login-app/src/app/tabs/employeecert-tab/employeecert-tab.component.ts:224-231 | Each `draw*` call appends exactly that operation to the page and changes nothing else. |
| PdfModel.WithFirstPage | angular-login-app/src/app/tabs/employeecert-tab/employeecert-tab.component.ts:208-211 | Writing the page object back replaces page 0 only; page count and other pages are unchanged. |
| SignatureLayout.BoxRegion | angular-login-app/src/app/tabs/employeecert-tab/employeecert-tab.component.ts:216-219 | The box is 170 wide and 100 high, its left edge at 50 and its top 50 below the page top. |
| SignatureLayout.BoxFitsPageIff | angular-login-app/src/app/tabs/employeecert-tab/employeecert-tab.component.ts:216-219 | The box lies on the page exactly when the page is at least 220 wide and 150 high. |
| SignatureLayout.DropEmpty | angular-login-app/src/app/tabs/employeecert-tab/employeecert-tab.component.ts:310-314 | `filter(line => line !== '')` keeps exactly the non-empty lines: each as often as in the input, in the input's order, and no empty line. |
| SignatureLayout.DetailLines | angular-login-app/src/app/tabs/employeecert-tab/employeecert-tab.component.ts:310-314 | The detail lines of the box. DetailLinesContent states them. |
| SignatureLayout.DetailLineOp | angular-login-app/src/app/tabs/employeecert-tab/employeecert-tab.component.ts:316-327 | How one detail line is drawn: at the left margin plus 8, size 7 in black when it starts with `Signed by:`, else size 6 in grey. DetailLinesLayout states the sizes and positions. |
| SignatureLayout.DetailLinesContent | angular-login-app/src/app/tabs/employeecert-tab/employeecert-tab.component.ts:310-314 | The detail lines are exactly `Signed by: <name>`, `Date: <date>`, then `Valid until: <validTo>` only when `validTo` is non-empty. |
| SignatureLayout.DetailLineOps | angular-login-app/src/app/tabs/employeecert-tab/employeecert-tab.component.ts:320-328 | One text operation per detail line. |
| SignatureLayout.HeaderOps | angular-login-app/src/app/tabs/employeecert-tab/employeecert-tab.component.ts:224-307 | The fixed part above the details is ten drawing operations. |
| SignatureLayout.BadgeOps | angular-login-app/src/app/tabs/employeecert-tab/employeecert-tab.component.ts:331-353 | The security badge is three drawing operations. |
| SignatureLayout.SignatureBoxOps | angular-login-app/src/app/tabs/employeecert-tab/employeecert-tab.component.ts:216-353 | The whole template in drawing order. DetailLinesLayout, TemplateInsideBox and SignerNameDrawn state its shape. |
| SignatureLayout.SignerNameDrawn | angular-login-app/src/app/tabs/employeecert-tab/employeecert-tab.component.ts:286-291 | The signer name is drawn as a text of its own, so a template the standard font can draw has an encodable signer name. |
| SignatureLayout.DetailLinesLayout | angular-login-app/src/app/tabs/employeecert-tab/employeecert-tab.component.ts:316-328 | The template has 13 + n operations for 2 or 3 lines. Line i is text i at `boxY + 42 - 8i`. Only the first line (`Signed by:`) has size 7. Every line sits above the badge. |
| SignatureLayout.TemplateInsideBox | angular-login-app/src/app/tabs/employeecert-tab/employeecert-tab.component.ts:216-353 | Every drawn element of the template lies inside the box (texts by their anchor point). |
| SignatureLayout.DrawHeader | angular-login-app/src/app/tabs/employeecert-tab/employeecert-tab.component.ts:224-307 | Drawing the header appends exactly the ten header operations to the page. |
| SignatureLayout.DrawDetailLines | angular-login-app/src/app/tabs/employeecert-tab/employeecert-tab.component.ts:316-328 | The `forEach` with a running `currentY` appends exactly the detail-line operations. |
| SignatureLayout.DrawBadge | angular-login-app/src/app/tabs/employeecert-tab/employeecert-tab.component.ts:331-353 | Drawing the badge appends exactly the three badge operations. |
| SignatureLayout.RenderSignatureBox | angular-login-app/src/app/tabs/employeecert-tab/employeecert-tab.component.ts:216-353 | The whole drawing sequence appends exactly the template for the page's height to the page. |
| SignatureLayout.StampFirstPage | angular-login-app/src/app/tabs/employeecert-tab/employeecert-tab.component.ts:208-356 | The signed document keeps its page count, the first page's size and every other page. |
| SignatureLayout.StampStacks | angular-login-app/src/app/tabs/employeecert-tab/employeecert-tab.component.ts:208-356 | Signing a signed document draws a second box after the first one on page 0 and leaves the other pages alone. |
| Certificates.AfterLastDot | angular-login-app/src/app/tabs/employeecert-tab/employeecert-tab.component.ts:63 | `split('.').pop()` is the suffix after the last `.`: it holds no `.`, and it is preceded by a `.` unless it is the whole name. |
| Certificates.HasCertSuffix | angular-login-app/src/app/tabs/employeecert-tab/employeecert-tab.component.ts:51 | The upload filter accepts the names ending, case-sensitively, in `.p12`, `.pfx`, `.pem` or `.crt`. AcceptedFileClassified and UpperCaseSuffixRefused state its consequences. |
| Certificates.Extension | angular-login-app/src/app/tabs/employeecert-tab/employeecert-tab.component.ts:63 | The extension is no longer than the name and holds no upper-case letter. |
| Certificates.Classify | angular-login-app/src/app/tabs/employeecert-tab/employeecert-tab.component.ts:65-88 | `p12` and `pfx` take the PKCS#12 branch, `pem` and `crt` the PEM branch, and any other extension neither. |
| Certificates.AfterLastDotOfSuffix | angular-login-app/src/app/tabs/employeecert-tab/employeecert-tab.component.ts:148 | A name ending in `.ext`, where `ext` has no dot, has extension `ext`. |
| Certificates.AcceptedFileClassified | angular-login-app/src/app/tabs/employeecert-tab/employeecert-tab.component.ts:49-66 | Every name the upload filter accepts is classified as PKCS#12 (`.p12`, `.pfx`) or PEM (`.pem`, `.crt`), never unsupported. |
| Certificates.UpperCaseSuffixRefused | angular-login-app/src/app/tabs/employeecert-tab/employeecert-tab.component.ts:51 | The filter is case-sensitive while the classification lower-cases: `CERT.P12` is refused although it would classify as PKCS#12. |
| Certificates.OrElse | angular-login-app/src/app/tabs/employeecert-tab/employeecert-tab.component.ts:177-178 | The logical-or fallback on strings gives the first string unless it is empty, so the result is one of the two and is non-empty whenever either is. |
| Certificates.SignerFromCert | angular-login-app/src/app/tabs/employeecert-tab/employeecert-tab.component.ts:177-192 | The signer name, subject and issuer taken from a certificate are never empty, and the validity strings are the certificate's own. |
| Certificates.SignerNameChain | angular-login-app/src/app/tabs/employeecert-tab/employeecert-tab.component.ts:177-192 | The signer name is `GN SN` when both are present (SN falling back to `surname`), else the CN, else `Unknown`. Subject and issuer default to `Unknown` and `Unknown Issuer`. None of the three is ever empty. |
| Certificates.CertificateSummary | angular-login-app/src/app/tabs/employeecert-tab/employeecert-tab.component.ts:77-80 | The info text: issuer, subject, valid-from and valid-to on four lines. SummaryShowsSigner relates it to the signer identity. |
| Certificates.SummaryShowsSigner | angular-login-app/src/app/tabs/employeecert-tab/employeecert-tab.component.ts:77-80 | The info text shows the subject and validity that signing uses. A missing issuer reads `Unknown` in the text but `Unknown Issuer` on the signature. |
| EmployeeCertTab.ResolveSigner | angular-login-app/src/app/tabs/employeecert-tab/employeecert-tab.component.ts:153-204 | PEM and CRT files keep the default identity. A PKCS#12 file needs a non-empty password and a decoded certificate, whose identity is then used. ResolvedSignerNamed states the password and name facts. |
| EmployeeCertTab.ResolvedSignerNamed | angular-login-app/src/app/tabs/employeecert-tab/employeecert-tab.component.ts:159-204 | A password is demanded exactly for PKCS#12 files with an empty password. A resolved signer has a name exactly when the file was PKCS#12; PEM and CRT files sign with an empty name. |
| EmployeeCertTab.RenderSigned | angular-login-app/src/app/tabs/employeecert-tab/employeecert-tab.component.ts:208-356 | Signing succeeds exactly when the PDF loads, has a first page, and the standard font can encode every text of the box. The result is then the saved document with the box stamped on page 0. |
| EmployeeCertTab.UnencodableNameFails | angular-login-app/src/app/tabs/employeecert-tab/employeecert-tab.component.ts:286-291 | A signer name the standard font cannot encode (such as one with `Ș`) makes signing fail, whatever the PDF. |
| EmployeeCertTab.RepeatedSigningStacks | angular-login-app/src/app/tabs/employeecert-tab/employeecert-tab.component.ts:208-362 | When the saved bytes load back as the saved document and both signatures can be drawn, signing the signed PDF again shows both boxes on page 0 in order and leaves the other pages alone. |
| EmployeeCertTab.DownloadName | angular-login-app/src/app/tabs/employeecert-tab/employeecert-tab.component.ts:382 | The download name. DownloadNameShape, FullNameDownloadName and NamelessDownloadName state its form. |
| EmployeeCertTab.DownloadNameShape | angular-login-app/src/app/tabs/employeecert-tab/employeecert-tab.component.ts:382 | The download name starts with `signed_` and ends with `.pdf`. It is white-space free when the ISO time is. It embeds a white-space-free signer name verbatim. |
| EmployeeCertTab.FullNameDownloadName | angular-login-app/src/app/tabs/employeecert-tab/employeecert-tab.component.ts:382 | A signer named `<given name> <surname>` (line 189), each part free of white space, downloads as `signed_<given name>_<surname>_<date>.pdf`. |
| EmployeeCertTab.NamelessDownloadName | angular-login-app/src/app/tabs/employeecert-tab/employeecert-tab.component.ts:157 | A PEM or CRT signature, whose signer name stays empty, downloads as `signed__<date>.pdf`. |
| EmployeeCertTab.PublishedUrl | angular-login-app/src/app/tabs/employeecert-tab/employeecert-tab.component.ts:374-375 | The stored URL is the new object URL followed by `#` and the non-empty decimal timestamp. |
| EmployeeCertTab.RevokedUrl | angular-login-app/src/app/tabs/employeecert-tab/employeecert-tab.component.ts:364-370 | The URL handed to `revokeObjectURL`: the current one when it is a blob URL, none otherwise. PublishedUrlRevokedNext states its consequences. |
| EmployeeCertTab.PublishedUrlRevokedNext | angular-login-app/src/app/tabs/employeecert-tab/employeecert-tab.component.ts:364-375 | The static `assets/fisa.pdf` is never revoked. A published blob URL is revoked by the next signing exactly as stored, fragment included. |
| EmployeeCertTab.InfoText | angular-login-app/src/app/tabs/employeecert-tab/employeecert-tab.component.ts:60-105 | The info text after reading a file: an error text when reading fails, otherwise the PKCS#12 or PEM text, and no change for another extension. InfoAgreesWithSigning relates it to signing. |
| EmployeeCertTab.Pkcs12InfoText | angular-login-app/src/app/tabs/employeecert-tab/employeecert-tab.component.ts:64-86 | The PKCS#12 info text: ask for the password when there is none or decoding throws, keep the text when there is no certificate bag, else the summary. |
| EmployeeCertTab.PemInfoText | angular-login-app/src/app/tabs/employeecert-tab/employeecert-tab.component.ts:87-98 | The PEM info text: the summary, or `Could not parse certificate`. |
| EmployeeCertTab.InfoAgreesWithSigning | angular-login-app/src/app/tabs/employeecert-tab/employeecert-tab.component.ts:60-105 | When the info text shows a PKCS#12 certificate, signing with the same password resolves that same certificate's identity. |
| EmployeeCertTab.DrawSignature | angular-login-app/src/app/tabs/employeecert-tab/employeecert-tab.component.ts:208-356 | Loading, drawing on the first page object and saving yields exactly `RenderSigned`. A signed result implies the standard font can encode the signer name. |
| EmployeeCertTab.EmployeeCertTabComponent.constructor | angular-login-app/src/app/tabs/employeecert-tab/employeecert-tab.component.ts:16-29 | The tab starts on `assets/fisa.pdf` with no bytes, no file, no password, not signing and no info text. |
| EmployeeCertTab.EmployeeCertTabComponent.LoadPdfBytes | angular-login-app/src/app/tabs/employeecert-tab/employeecert-tab.component.ts:40-47 | Fetched bytes are stored; a failed fetch leaves them as they were. |
| EmployeeCertTab.EmployeeCertTabComponent.ExtractCertificateInfo | angular-login-app/src/app/tabs/employeecert-tab/employeecert-tab.component.ts:60-105 | The info text becomes the certificate summary, `Enter password…`, `Could not parse certificate` or `Error reading certificate`. A PKCS#12 file without a certificate bag leaves it unchanged. |
| EmployeeCertTab.EmployeeCertTabComponent.ReadPkcs12Info | angular-login-app/src/app/tabs/employeecert-tab/employeecert-tab.component.ts:64-86 | With no password, or when decoding throws, the user is asked for the password. A decoded certificate is summarised. A container without a certificate bag leaves the text unchanged. |
| EmployeeCertTab.EmployeeCertTabComponent.ReadPemInfo | angular-login-app/src/app/tabs/employeecert-tab/employeecert-tab.component.ts:87-98 | A PEM or CRT file shows its summary, or `Could not parse certificate` when it does not decode. |
| EmployeeCertTab.EmployeeCertTabComponent.OnCertificateFileSelected | angular-login-app/src/app/tabs/employeecert-tab/employeecert-tab.component.ts:49-58 | A file is stored and read exactly when its name passes the case-sensitive suffix filter. Otherwise nothing changes. A stored file always passed the filter. |
| EmployeeCertTab.EmployeeCertTabComponent.Publish | angular-login-app/src/app/tabs/employeecert-tab/employeecert-tab.component.ts:362-375 | The signed bytes replace the old ones. The old URL is revoked when it is a blob URL. The new URL is the object URL plus `#<Date.now()>`. |
| EmployeeCertTab.EmployeeCertTabComponent.ParseSigner | angular-login-app/src/app/tabs/employeecert-tab/employeecert-tab.component.ts:153-204 | The identity step yields exactly `ResolveSigner`: the default values for PEM and CRT files, a demanded password, a rejected container, or the certificate's identity. |
| EmployeeCertTab.EmployeeCertTabComponent.SignPdf | angular-login-app/src/app/tabs/employeecert-tab/employeecert-tab.component.ts:129-409 | Each outcome (no PDF, no file, password required, certificate rejected, failure, signed) occurs exactly under its condition; a box text the standard font cannot encode ends in failure. `isSigning` is raised only after the two guards and is always lowered again. Only a successful signing replaces the bytes and URL, with the rendered PDF, the revoked old URL and the download name. |
| Auth.KeyValueStore.GetItem | angular-login-app/src/app/auth.service.ts:11 | `getItem` returns the stored value exactly when the key is present. |
| Auth.KeyValueStore.constructor | angular-login-app/src/app/auth.service.ts:11 | The storage holds exactly the entries it was created with. |
| Auth.KeyValueStore.SetItem | angular-login-app/src/app/auth.service.ts:17 | `setItem` stores the value under the key and changes no other entry. |
| Auth.KeyValueStore.RemoveItem | angular-login-app/src/app/auth.service.ts:25 | `removeItem` deletes the key and changes no other entry. |
| Auth.AcceptsCredentials | angular-login-app/src/app/auth.service.ts:15 | `login` accepts exactly user `admin` with password `123`. |
| Auth.SessionAfterLogin | angular-login-app/src/app/auth.service.ts:14-21 | Accepted credentials sign in as `admin`. Refused ones keep the previous session. The session is open afterwards exactly when it was before or the credentials were accepted. |
| Auth.LoginOutcomes | angular-login-app/src/app/auth.service.ts:14-21 | A refused login never signs a user out. A successful login ends the same from any session. From no session, login succeeds exactly for `admin`/`123`. |
| Auth.AuthService.constructor | angular-login-app/src/app/auth.service.ts:9-12 | A new service restores the session from the stored `currentUser` entry, so memory and storage agree. |
| Auth.AuthService.Login | angular-login-app/src/app/auth.service.ts:14-21 | It returns true exactly for `admin`/`123`, then stores the user under `currentUser` and in memory. A refused attempt changes neither. |
| Auth.AuthService.Logout | angular-login-app/src/app/auth.service.ts:23-26 | It clears the session and removes the stored entry. Logging out when already signed out changes nothing. |
| Auth.AuthService.IsLoggedIn | angular-login-app/src/app/auth.service.ts:28-30 | It holds exactly when `currentUser` is set. |
| Auth.AuthService.GetCurrentUser | angular-login-app/src/app/auth.service.ts:32-34 | It returns the user exactly when signed in. |
| Auth.ReloadKeepsSession | angular-login-app/src/app/auth.service.ts:9-26 | A fresh service over the same storage after a successful login is signed in as `admin`. After a logout, a fresh one is signed out. |
| Trainings.MaxId | angular-login-app/src/app/services/training.service.ts:25 | `Math.max(...ids, 0)` is at least 0 and at least every id, and it is 0 or one of the ids. |
| Trainings.NextId | angular-login-app/src/app/services/training.service.ts:25 | The new id is at least 1 and larger than every existing id. |
| Trainings.NextIdExamples | angular-login-app/src/app/services/training.service.ts:14-25 | An empty catalog gets id 1. The initial catalog gets 439. |
| Trainings.FindById | angular-login-app/src/app/services/training.service.ts:36-38 | `find` returns nothing exactly when no entry has the id. Otherwise it returns the first entry with that id. |
| Trainings.AppendKeepsDistinct | angular-login-app/src/app/services/training.service.ts:25-32 | Appending an entry with the new id keeps all ids distinct. |
| Trainings.FindAfterAppend | angular-login-app/src/app/services/training.service.ts:25-38 | After the append, looking up the new id finds the new entry, and every other lookup is unchanged. |
| Trainings.TrainingService.constructor | angular-login-app/src/app/services/training.service.ts:14-18 | The service starts with the three-entry catalog, whose ids are distinct. |
| Trainings.TrainingService.GetTrainings | angular-login-app/src/app/services/training.service.ts:20-22 | It returns the catalog. |
| Trainings.TrainingService.AddTraining | angular-login-app/src/app/services/training.service.ts:24-34 | It appends exactly one entry, with the new id, the name and the given or default type and language, and returns it. Ids stay distinct, and the new id then finds the new entry. |
| Trainings.TrainingService.GetTrainingById | angular-login-app/src/app/services/training.service.ts:36-38 | It returns the first entry with the id, or none. |
| Trainings.AddToInitialCatalog | angular-login-app/src/app/services/training.service.ts:14-34 | Adding a name to the initial catalog yields id 439 with type `Instruire tip MODULE SCORM` and language `ro/en`. |
| TrainingsTab.FilterMatching | angular-login-app/src/app/tabs/trainings-tab/trainings-tab.component.ts:40-44 | `filter` keeps exactly the matching entries: each as many times as it occurs in the input, in their original order, and adds none. |
| TrainingsTab.Matches | angular-login-app/src/app/tabs/trainings-tab/trainings-tab.component.ts:41-43 | An entry matches when its lower-cased name, its lower-cased type or its decimal id contains the search text. |
| TrainingsTab.FilterIdempotent | angular-login-app/src/app/tabs/trainings-tab/trainings-tab.component.ts:40-44 | Filtering a filtered list with the same search changes nothing. |
| TrainingsTab.FilterKeepsAllMatching | angular-login-app/src/app/tabs/trainings-tab/trainings-tab.component.ts:40-44 | When every entry matches, the whole list is kept. |
| TrainingsTab.SearchResults | angular-login-app/src/app/tabs/trainings-tab/trainings-tab.component.ts:33-45 | Blank search text shows the whole catalog. Otherwise the result holds exactly the entries whose lower-cased name or type, or decimal id, contains the lower-cased text, each as often as in the catalog and in catalog order. |
| Sublists.SublistRefl | angular-login-app/src/app/tabs/trainings-tab/trainings-tab.component.ts:35 | The restored full list is a sublist of the catalog. |
| TrainingsTab.LowerCharKeepsSpace | angular-login-app/src/app/tabs/trainings-tab/trainings-tab.component.ts:34-39 | Lower-casing neither creates nor removes white space. |
| TrainingsTab.SearchIgnoresCase | angular-login-app/src/app/tabs/trainings-tab/trainings-tab.component.ts:33-45 | Searching for the lower-cased text gives the same result as searching for the text. |
| TrainingsTab.SearchFindsId | angular-login-app/src/app/tabs/trainings-tab/trainings-tab.component.ts:43 | Searching for an entry's decimal id finds that entry. |
| TrainingsTab.TrainingsTabComponent.constructor | angular-login-app/src/app/tabs/trainings-tab/trainings-tab.component.ts:20-27 | The tab starts with empty search text, no selection, the three-entry catalog and an empty result list. |
| TrainingsTab.TrainingsTabComponent.NgOnInit | angular-login-app/src/app/tabs/trainings-tab/trainings-tab.component.ts:29-31 | The result list becomes the whole catalog. |
| TrainingsTab.TrainingsTabComponent.OnSearch | angular-login-app/src/app/tabs/trainings-tab/trainings-tab.component.ts:33-45 | The result list becomes the search result for the current text. The catalog, the text and the selection are unchanged. |
| TrainingsTab.TrainingsTabComponent.ViewTraining | angular-login-app/src/app/tabs/trainings-tab/trainings-tab.component.ts:47-52 | It selects the first entry with the id. An unknown id keeps the current selection. |
| TrainingsTab.TrainingsTabComponent.CloseModal | angular-login-app/src/app/tabs/trainings-tab/trainings-tab.component.ts:54-56 | It clears the selection and nothing else. |
| TrainingsTab.TrainingsTabComponent.StartTraining | angular-login-app/src/app/tabs/trainings-tab/trainings-tab.component.ts:58-61 | It closes the modal: the selection is cleared. |
| TrainingsTab.TrainingsTabComponent.StartTest | angular-login-app/src/app/tabs/trainings-tab/trainings-tab.component.ts:63-66 | It closes the modal: the selection is cleared. |
| VideoProgress.Rank | angular-login-app/src/app/tabs/training-tab/training-tab.component.ts:20-24 | It orders the statuses: not-started is rank 0 and finished is rank 2. |
| VideoProgress.AfterSelect | angular-login-app/src/app/tabs/training-tab/training-tab.component.ts:74-78 | A not-started video becomes in-progress. Every other entry is unchanged and no entry is added. |
| VideoProgress.AfterPlayerEvent | angular-login-app/src/app/tabs/training-tab/training-tab.component.ts:67-72 | Code 0 marks the video finished, inserting it if absent. Any other code changes nothing. Other entries never change. |
| VideoProgress.InitialStatusNotStarted | angular-login-app/src/app/tabs/training-tab/training-tab.component.ts:20-24 | `workplace`, `fire` and `emergency` exist and all start not-started. |
| VideoProgress.ProgressIsMonotone | angular-login-app/src/app/tabs/training-tab/training-tab.component.ts:67-78 | Both transitions keep every entry a status string, and no entry's rank ever decreases, so finished never reverts. |
| VideoProgress.UnknownVideo | angular-login-app/src/app/tabs/training-tab/training-tab.component.ts:67-78 | Selecting an unknown video adds nothing. An end event for it inserts exactly one entry. |
| VideoProgress.SelectIdempotent | angular-login-app/src/app/tabs/training-tab/training-tab.component.ts:74-78 | Selecting a video twice is the same as selecting it once. |
| TrainingTab.TrainingTabComponent.constructor | angular-login-app/src/app/tabs/training-tab/training-tab.component.ts:19-24 | No video is selected and all three videos are not started. |
| TrainingTab.TrainingTabComponent.SelectVideo | angular-login-app/src/app/tabs/training-tab/training-tab.component.ts:74-78 | The video is always selected, and the dictionary takes the select transition. |
| TrainingTab.TrainingTabComponent.OnPlayerStateChange | angular-login-app/src/app/tabs/training-tab/training-tab.component.ts:67-72 | The dictionary takes the player-event transition. The selection is unchanged. |
| TrainingTab.WatchWorkplaceVideo | angular-login-app/src/app/tabs/training-tab/training-tab.component.ts:67-78 | Select, watch to the end, then select again leaves the video finished. |
| MainPage.Translate | angular-login-app/src/app/main/main.component.ts:183-185 | An unknown language fails. Otherwise the result is the non-empty table entry, or the key itself when there is none. |
| MainPage.TablesAgree | angular-login-app/src/app/main/main.component.ts:31-110 | The `en` and `ro` tables have the same 37 keys and no empty entry. |
| MainPage.FallbackIndependentOfLanguage | angular-login-app/src/app/main/main.component.ts:31-110 | A key has an entry in English exactly when it has one in Romanian. A key with neither shows as itself in both. |
| MainPage.TranslateExamples | angular-login-app/src/app/main/main.component.ts:33-72 | `home` reads `Home` / `Acasă`. An unknown key shows as itself. An unknown language fails. |
| MainPage.MainComponent.constructor | angular-login-app/src/app/main/main.component.ts:20-27 | The page starts with no user name, no video, English, and all videos not started. |
| MainPage.MainComponent.NgOnInit | angular-login-app/src/app/main/main.component.ts:114-123 | A signed-out visitor is redirected to login. A signed-in one gets the current user's name. Either way the language resets to English. |
| MainPage.MainComponent.ChangeLanguage | angular-login-app/src/app/main/main.component.ts:179-181 | Any string becomes the current language. |
| MainPage.MainComponent.TranslateKey | angular-login-app/src/app/main/main.component.ts:183-185 | `translate` is defined exactly when the current language is `en` or `ro`, and then falls back to the key. |
| MainPage.MainComponent.SelectVideo | angular-login-app/src/app/main/main.component.ts:167-171 | The video is selected, and the dictionary takes the select transition. |
| MainPage.MainComponent.OnPlayerStateChange | angular-login-app/src/app/main/main.component.ts:160-165 | The dictionary takes the player-event transition. |
| MainPage.MainComponent.Logout | angular-login-app/src/app/main/main.component.ts:187-190 | It signs out through the service (memory and storage) and always redirects to login. |
| MainPage.SignInThenOpen | angular-login-app/src/app/main/main.component.ts:114-123 | After a login, opening the main page shows `admin` in English, even after switching to Romanian first. |

## Left out

- Certificate decoding: node-forge's ASN.1, PKCS#12 and PEM decoding is not modelled. It is an abstract function from bytes (and a password) to an outcome: decode error, no certificate bag, or the certificate's fields.
- PDF handling: pdf-lib's byte format is not modelled. `load` and `save` are abstract functions, and drawing is recorded as a list of operations with their constants. The rendering of fonts, colours and glyph extents is not modelled; a text's extent is its anchor point. Which characters the standard Helvetica font (WinAnsi encoding) can encode is an abstract predicate of `PdfLib`.
- Dates, locale and time: the results of `toLocaleDateString`, `toISOString`, `Date.now` and `URL.createObjectURL` are passed in as values (`Browser`), not computed.
- Revocation: the model records which string is revoked. Whether the browser frees a blob revoked with a `#…` fragment is browser behaviour.
- Asynchrony: each `await` is modelled as completing in order within one call. Concurrent or overlapping signing attempts are not modelled.
- UI glue: `alert`, `confirm`, the download anchor click, `DomSanitizer`, the `fetch` of `assets/fisa.pdf`, console logging and the Angular router are left out. Router calls are the `redirectToLogin` results.
- `browseForCertificateFile`: not modelled. It builds a hidden `<input>` that also accepts `.cer` and skips the suffix check.
- The `signatureName`, `signatureReason` and `signatureLocation` fields: not modelled, because no code reads them.
- `editTraining`: not modelled; it only logs.
- YouTube player loading: script injection, `initializePlayers` and `setTimeout` are left out.
- Player event codes: only the event's `data` code is kept, as an integer.
- EmployeeCertTab.DrawSignature: checks every text of the box for encodability before drawing, where the source throws at the first unencodable `drawText`. The half-drawn document is never saved, so the result is the same; the partly drawn page object is not modelled.
- JsStrings.LowerChar: maps only ASCII, Latin-1 and the Romanian capital letters (Ă, Ş, Ţ, Ș, Ț). Other Unicode upper-case letters are treated as having no lower-case form.
- JsStrings.NatToString: covers non-negative integers. Negative ids use a `-` prefix through `IntToString`, and non-integer ids (`toString` of a fraction) are not modelled.
- Trainings.MaxId: assumes integer ids. `Math.max` over a non-numeric id gives `NaN` in JavaScript, and that is not modelled.
- Trainings.TrainingService.GetTrainings: returns the list as a value. The source returns the live array, which a caller could mutate; that aliasing is not modelled.
- MainPage.Translate: a key or a language that names an `Object.prototype` member (such as `constructor`) finds that member in JavaScript. The model treats such a key like any other absent key. For such a language the source shows the key (or a property of that member), while the model returns None.
- MainPage.MainComponent.TranslateKey: after `changeLanguage('constructor')` or another `Object.prototype` name, the source still shows a text (usually the key), while the model returns None, as for `Translate`.
- Other files: `server/server.js`, `certificate.service.ts`, the home, session, instruction-sheet and employees tabs, `login.component.ts` and `main.ts` are not part of this model.
