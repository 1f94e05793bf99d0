/**
 * `POST /api/upload-image`: a JSON body `{ dataUrl }` holding an image as a
 * `data:` URL (section 3 of RFC 2397) is validated, written under the image
 * directory and answered with the URL it is served from.
 *
 * The clock (`Date.now()`), the random suffix (`Math.random().toString(36).slice(2, 8)`)
 * and whether `fs.writeFileSync` succeeds are parameters.
 */
module Upload {
  import opened Wrappers
  import opened Text
  import opened Records
  import opened Http

  /** The characters `.` does not match in a JavaScript regular expression. */
  predicate IsLineTerminator(c: char) {
    c == '\n' || c == '\r' || c == '\U{2028}' || c == '\U{2029}'
  }

  /** The captures the handler uses: group 2 (the subtype as written) and group 3 (the payload). */
  datatype DataUrl = DataUrl(subtype: string, payload: string)

  /** `png|jpe?g` under the `i` flag. */
  predicate IsImageSubtype(sub: string) {
    Lower(sub) == "png" || Lower(sub) == "jpg" || Lower(sub) == "jpeg"
  }

  /** `.+` followed by `$`: at least one character and no line terminator up to the end. */
  predicate IsPayload(p: string) {
    |p| > 0 && forall k :: 0 <= k < |p| ==> !IsLineTerminator(p[k])
  }

  /** The prefix `data:image/`, in any letter case. */
  const HeadLength := 11
  /** The separator `;base64,`, in any letter case. */
  const MarkLength := 8

  /**
   * `s.match(/^data:(image\/(png|jpe?g));base64,(.+)$/i)`.
   * The literal parts compare ASCII letters without regard to case.
   */
  function MatchDataUrl(s: string): (r: Option<DataUrl>)
    ensures r.Some? ==> IsImageSubtype(r.value.subtype) && IsPayload(r.value.payload)
    ensures r.Some? ==>
      var n := HeadLength + |r.value.subtype|;
      n + MarkLength <= |s| && Lower(s[..HeadLength]) == "data:image/" && s[HeadLength..n] == r.value.subtype
      && Lower(s[n..n + MarkLength]) == ";base64," && s[n + MarkLength..] == r.value.payload
  {
    if |s| < HeadLength || Lower(s[..HeadLength]) != "data:image/" then None
    else
      var rest := s[HeadLength..];
      if 3 + MarkLength <= |rest| && (Lower(rest[..3]) == "png" || Lower(rest[..3]) == "jpg")
        && Lower(rest[3..3 + MarkLength]) == ";base64," && IsPayload(rest[3 + MarkLength..])
      then
        assert s[HeadLength..HeadLength + 3] == rest[..3];
        Some(DataUrl(rest[..3], rest[3 + MarkLength..]))
      else if 4 + MarkLength <= |rest| && Lower(rest[..4]) == "jpeg"
        && Lower(rest[4..4 + MarkLength]) == ";base64," && IsPayload(rest[4 + MarkLength..])
      then
        assert s[HeadLength..HeadLength + 4] == rest[..4];
        Some(DataUrl(rest[..4], rest[4 + MarkLength..]))
      else None
  }

  /** Every string of the accepted shape is matched, with the subtype and payload as captured. */
  lemma MatchDataUrlComplete(head: string, sub: string, mark: string, payload: string)
    requires Lower(head) == "data:image/" && IsImageSubtype(sub) && Lower(mark) == ";base64," && IsPayload(payload)
    ensures MatchDataUrl(head + sub + mark + payload) == Some(DataUrl(sub, payload))
  {
    var s := head + sub + mark + payload;
    assert s[..HeadLength] == head;
    var rest := s[HeadLength..];
    assert rest == sub + mark + payload;
    var n := |sub|;
    assert rest[..n] == sub;
    assert rest[n..n + MarkLength] == mark;
    assert rest[n + MarkLength..] == payload;
    if n == 4 {
      assert Lower(rest[..3]) == Lower(sub)[..3];
      assert Lower(sub)[..3] == "jpe";
    }
  }

  /** The shape is also necessary: a match decomposes its input into those four parts. */
  lemma MatchDataUrlSound(s: string)
    requires MatchDataUrl(s).Some?
    ensures exists head, mark ::
      (Lower(head) == "data:image/" && Lower(mark) == ";base64," &&
       s == head + MatchDataUrl(s).value.subtype + mark + MatchDataUrl(s).value.payload)
  {
    var d := MatchDataUrl(s).value;
    var n := HeadLength + |d.subtype|;
    var head, mark := s[..HeadLength], s[n..n + MarkLength];
    assert s == head + d.subtype + mark + d.payload;
  }

  lemma WrongTypeIsRejected()
    ensures MatchDataUrl("data:image/gif;base64,R0lG") == None
    ensures MatchDataUrl("data:image/png;base64,") == None
    ensures MatchDataUrl("") == None
  {
    var gif := "data:image/gif;base64,R0lG";
    assert Lower(gif[HeadLength..][..3]) == "gif";
    assert Lower(gif[HeadLength..][..4]) == "gif;";
    var empty := "data:image/png;base64,";
    assert empty[HeadLength..][3 + MarkLength..] == [];
    assert |empty[HeadLength..]| == 11;
  }

  /** `match[2].toLowerCase().startsWith('jp') ? 'jpg' : 'png'`. */
  function Extension(sub: string): string {
    if StartsWith(Lower(sub), "jp") then "jpg" else "png"
  }

  /** For an accepted subtype the extension is png for PNG and jpg for both JPEG spellings, in any case. */
  lemma ExtensionOfSubtype(sub: string)
    requires IsImageSubtype(sub)
    ensures Extension(sub) == (if Lower(sub) == "png" then "png" else "jpg")
    ensures Extension(sub) == "jpg" <==> Lower(sub) == "jpg" || Lower(sub) == "jpeg"
  {
    assert Lower(sub)[..2] == (if Lower(sub) == "png" then "pn" else "jp");
  }

  /** A character `Number.prototype.toString(36)` writes in a fraction: 0-9 and a-z. */
  predicate IsBase36(c: char) {
    '0' <= c <= '9' || 'a' <= c <= 'z'
  }

  /** The most `.slice(2, 8)` of a base-36 fraction can yield: up to six base-36 characters. */
  predicate IsRandomSuffix(s: string) {
    |s| <= 6 && forall k :: 0 <= k < |s| ==> IsBase36(s[k])
  }

  /** `img_${Date.now()}_${random}.${ext}`. */
  function FileName(nowMs: nat, rand: string, ext: string): string {
    "img_" + NatToString(nowMs) + "_" + rand + "." + ext
  }

  /** The directory files are written to, as the static server names it. */
  const ImagesDir := "./src/uploads/images/"
  /** The URL prefix of an uploaded image. */
  const ImagesUrl := "/uploads/images/"

  /** The file written for a name is the one the static server reads for its URL. */
  lemma WrittenPathIsServedPath(name: string)
    ensures ImagesDir + name == "./src" + (ImagesUrl + name)
  {
    assert "./src" + ImagesUrl == ImagesDir;
  }

  datatype WrittenFile = WrittenFile(path: string, base64: string)

  datatype UploadOutcome = UploadOutcome(response: Response, written: Option<WrittenFile>)

  /** The URL of an upload is `/uploads/images/img_<ms>_<rand>.<ext>`, written as `./src` plus it. */
  predicate IsUploadOf(url: string, path: string, nowMs: nat, rand: string, ext: string) {
    url == ImagesUrl + FileName(nowMs, rand, ext) && path == "./src" + url
  }

  /** The part of the handler after a successful match: name the file, write it, answer. */
  function StoreImage(d: DataUrl, nowMs: nat, rand: string, writeOk: bool): (u: UploadOutcome)
    ensures u.written.Some? <==> writeOk
    ensures !writeOk ==> u.response == SendJson(500, ErrorMessage("Upload failed"))
    ensures writeOk ==>
      && u.response.payload.UploadedUrl? && u.response == SendJson(201, UploadedUrl(u.response.payload.url))
      && IsUploadOf(u.response.payload.url, u.written.value.path, nowMs, rand, Extension(d.subtype))
      && u.written.value.base64 == d.payload
  {
    var name := FileName(nowMs, rand, Extension(d.subtype));
    if writeOk then
      var url := ImagesUrl + name;
      WrittenPathIsServedPath(name);
      UploadOutcome(SendJson(201, UploadedUrl(url)), Some(WrittenFile(ImagesDir + name, d.payload)))
    else
      UploadOutcome(SendJson(500, ErrorMessage("Upload failed")), None)
  }

  /**
   * The handler body. A `null` body makes `body.dataUrl` throw inside the `try`, which
   * answers 500 like a failed write; a missing or empty `dataUrl` is matched as "".
   */
  function UploadImage(body: Json, nowMs: nat, rand: string, writeOk: bool): (u: UploadOutcome)
    ensures u.response.status == 201 <==> body.Object? && MatchDataUrl(Member(body, "dataUrl")).Some? && writeOk
    ensures u.response.status == 400 <==> body.Object? && MatchDataUrl(Member(body, "dataUrl")).None?
    ensures u.response.status == 400 ==> u.response == SendJson(400, ErrorMessage("Invalid dataUrl"))
    ensures u.response.status != 201 && u.response.status != 400 ==> u.response == SendJson(500, ErrorMessage("Upload failed"))
    ensures u.written.Some? <==> u.response.status == 201
    ensures u.response.status == 201 ==>
      var d := MatchDataUrl(Member(body, "dataUrl")).value;
      && u.response.payload.UploadedUrl? && u.response == SendJson(201, UploadedUrl(u.response.payload.url))
      && IsUploadOf(u.response.payload.url, u.written.value.path, nowMs, rand, Extension(d.subtype))
      && u.written.value.base64 == d.payload
  {
    match body
    case Null => UploadOutcome(SendJson(500, ErrorMessage("Upload failed")), None)
    case Object(_) =>
      match MatchDataUrl(Member(body, "dataUrl"))
      case None => UploadOutcome(SendJson(400, ErrorMessage("Invalid dataUrl")), None)
      case Some(d) => StoreImage(d, nowMs, rand, writeOk)
  }

  /** The file name of an upload has no '/' and its only '.' is the one before the extension. */
  lemma FileNameShape(nowMs: nat, rand: string, ext: string)
    requires IsRandomSuffix(rand) && NoneIs(ext, '.') && NoneIs(ext, '/')
    ensures var stem := "img_" + NatToString(nowMs) + "_" + rand;
      && FileName(nowMs, rand, ext) == stem + "." + ext
      && NoneIs(stem, '.') && NoneIs(stem, '/') && stem[0] == 'i'
  {
    var digits := NatToString(nowMs);
    var stem := "img_" + digits + "_" + rand;
    forall k | 0 <= k < |stem| ensures stem[k] != '.' && stem[k] != '/' {
      if 4 <= k < 4 + |digits| {
        assert stem[k] == digits[k - 4] && IsDigit(digits[k - 4]);
      } else if 4 + |digits| + 1 <= k {
        assert stem[k] == rand[k - 4 - |digits| - 1] && IsBase36(rand[k - 4 - |digits| - 1]);
      }
    }
  }
}
