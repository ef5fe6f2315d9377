/**
  lib/qr-utils.ts: names and paths of the files written under public/uploads
  (QR codes and saved images). The directory creation, the QR encoding and
  the file writes themselves are effects outside this model; `QrFiles` records
  only which payload each QR file holds.
 */
module QrUtils {
  import opened Wrappers
  import opened Strings

  const DefaultBaseUrl: string := "http://localhost:3000"
  const QrFolder: string := "/uploads/qr-codes/"
  const ImagesFolder: string := "/uploads/images/"

  /** `${NEXT_PUBLIC_BASE_URL || 'http://localhost:3000'}/box/${boxId}`: what the QR code encodes. */
  function QrPayload(baseUrl: Option<string>, boxId: int): (url: string)
    ensures baseUrl.None? || baseUrl.value == "" ==> StartsWith(url, DefaultBaseUrl + "/box/")
    ensures baseUrl.Some? && baseUrl.value != "" ==> StartsWith(url, baseUrl.value + "/box/")
  {
    var base := if baseUrl.Some? && baseUrl.value != "" then baseUrl.value else DefaultBaseUrl;
    assert (base + "/box/" + IntToString(boxId))[..|base + "/box/"|] == base + "/box/";
    base + "/box/" + IntToString(boxId)
  }

  /** The box page the payload names is the box it was made for: reading the id back gives `boxId`. */
  lemma QrPayloadNamesBox(baseUrl: Option<string>, boxId: int)
    ensures var url := QrPayload(baseUrl, boxId);
      var base := if baseUrl.Some? && baseUrl.value != "" then baseUrl.value else DefaultBaseUrl;
      ParseInt(url[|base + "/box/"|..]) == Some(boxId)
  {
    var base := if baseUrl.Some? && baseUrl.value != "" then baseUrl.value else DefaultBaseUrl;
    assert QrPayload(baseUrl, boxId)[|base + "/box/"|..] == IntToString(boxId);
    ParseIntOfIntToString(boxId);
  }

  // ------------------------------------------------------------ QR file names

  /** `box-${boxNumber}-qr.png`: the file name generateQRCode writes, keyed by the box number. */
  function QrFileName(boxNumber: int): string
  {
    "box-" + IntToString(boxNumber) + "-qr.png"
  }

  /** The path generateQRCode returns for a box number. */
  function QrCodePath(boxNumber: int): (path: string)
    ensures StartsWith(path, QrFolder)
  {
    assert (QrFolder + QrFileName(boxNumber))[..|QrFolder|] == QrFolder;
    QrFolder + QrFileName(boxNumber)
  }

  /** The QR file store: file path to the payload last encoded into it. */
  type QrFiles = map<string, string>

  /** generateQRCode as written: the payload for the box goes into the file named by its number. */
  function GenerateQrCode(files: QrFiles, baseUrl: Option<string>, boxId: int, boxNumber: int): (r: (QrFiles, string))
    ensures r.1 == QrCodePath(boxNumber) && r.1 in r.0 && r.0[r.1] == QrPayload(baseUrl, boxId)
    ensures forall p :: p in files && p != r.1 ==> p in r.0 && r.0[p] == files[p]
  {
    var path := QrCodePath(boxNumber);
    (files[path := QrPayload(baseUrl, boxId)], path)
  }

  lemma IntToStringInjective(a: int, b: int)
    requires IntToString(a) == IntToString(b)
    ensures a == b
  {
    ParseIntOfIntToString(a);
    ParseIntOfIntToString(b);
  }

  /**
    As written, two boxes with the same number but different ids (boxes of two
    owners, each numbering from 1) get the same QR file: after generating the
    second, the first box's recorded path holds a code for the other box.
   */
  lemma QrFileCollision(files: QrFiles, baseUrl: Option<string>, idA: int, idB: int, boxNumber: int)
    requires idA != idB
    ensures var (afterA, pathA) := GenerateQrCode(files, baseUrl, idA, boxNumber);
      var (afterB, pathB) := GenerateQrCode(afterA, baseUrl, idB, boxNumber);
      pathA == pathB && afterB[pathA] != QrPayload(baseUrl, idA)
  {
    var base := if baseUrl.Some? && baseUrl.value != "" then baseUrl.value else DefaultBaseUrl;
    if QrPayload(baseUrl, idA) == QrPayload(baseUrl, idB) {
      assert QrPayload(baseUrl, idA)[|base + "/box/"|..] == IntToString(idA);
      assert QrPayload(baseUrl, idB)[|base + "/box/"|..] == IntToString(idB);
      IntToStringInjective(idA, idB);
    }
  }

  /** The corrected name: keyed by the box id, which is unique across all owners. */
  function QrFileNameById(boxId: int): string
  {
    "box-" + IntToString(boxId) + "-qr.png"
  }

  function QrCodePathById(boxId: int): (path: string)
    ensures StartsWith(path, QrFolder)
  {
    assert (QrFolder + QrFileNameById(boxId))[..|QrFolder|] == QrFolder;
    QrFolder + QrFileNameById(boxId)
  }

  /** Distinct boxes get distinct QR files. */
  lemma QrCodePathByIdInjective(a: int, b: int)
    requires QrCodePathById(a) == QrCodePathById(b)
    ensures a == b
  {
    var na, nb := QrFileNameById(a), QrFileNameById(b);
    DropPrefix(QrFolder, na, nb);
    DropSuffix("box-" + IntToString(a), "box-" + IntToString(b), "-qr.png");
    DropPrefix("box-", IntToString(a), IntToString(b));
    IntToStringInjective(a, b);
  }

  lemma DropPrefix(pre: string, x: string, y: string)
    requires pre + x == pre + y
    ensures x == y
  {
    assert (pre + x)[|pre|..] == x;
    assert (pre + y)[|pre|..] == y;
  }

  lemma DropSuffix(x: string, y: string, post: string)
    requires x + post == y + post
    ensures x == y
  {
    assert (x + post)[..|x|] == x;
    assert (y + post)[..|y|] == y;
  }

  /** generateQRCode keyed by id. */
  function GenerateQrCodeById(files: QrFiles, baseUrl: Option<string>, boxId: int): (r: (QrFiles, string))
    ensures r.1 == QrCodePathById(boxId) && r.1 in r.0 && r.0[r.1] == QrPayload(baseUrl, boxId)
    ensures forall p :: p in files && p != r.1 ==> p in r.0 && r.0[p] == files[p]
  {
    var path := QrCodePathById(boxId);
    (files[path := QrPayload(baseUrl, boxId)], path)
  }

  /** With id-keyed names, generating another box's code leaves this box's file holding its own payload. */
  lemma QrFilesStayApart(files: QrFiles, baseUrl: Option<string>, idA: int, idB: int)
    requires idA != idB
    ensures var (afterA, pathA) := GenerateQrCodeById(files, baseUrl, idA);
      var (afterB, _) := GenerateQrCodeById(afterA, baseUrl, idB);
      pathA in afterB && afterB[pathA] == QrPayload(baseUrl, idA)
  {
    if QrCodePathById(idA) == QrCodePathById(idB) {
      QrCodePathByIdInjective(idA, idB);
    }
  }

  // ------------------------------------------------------------- saved images

  /** Strip trailing slashes, as `path.extname` ignores them. */
  function TrimTrailingSlashes(p: string): (r: string)
    ensures |r| <= |p| && r == p[..|r|] && (r == [] || r[|r| - 1] != '/')
    ensures forall i :: |r| <= i < |p| ==> p[i] == '/'
  {
    if p == [] || p[|p| - 1] != '/' then p else TrimTrailingSlashes(p[..|p| - 1])
  }

  /** The last segment of a POSIX path. */
  function BaseName(p: string): (b: string)
    ensures '/' !in b
  {
    var t := TrimTrailingSlashes(p);
    var j := LastIndexOf(t, '/');
    t[j + 1..]
  }

  /**
    BaseName is the last segment: what follows the last slash once trailing
    slashes are stripped, or the whole stripped path when it has no slash.
   */
  lemma BaseNameIsLastSegment(p: string)
    ensures var t, b := TrimTrailingSlashes(p), BaseName(p);
      |b| <= |t| && b == t[|t| - |b|..] && (|b| == |t| || t[|t| - |b| - 1] == '/')
  {
    var t := TrimTrailingSlashes(p);
    var j := LastIndexOf(t, '/');
    assert BaseName(p) == t[j + 1..];
  }

  /**
    `path.extname` of one path segment: from its last dot to its end; empty
    when the segment has no dot, only a leading one, or is "..".
   */
  function SegmentExt(b: string): (ext: string)
    ensures ext == [] || (ext[0] == '.' && '.' !in ext[1..])
    ensures ext != [] ==> |ext| < |b| && b[|b| - |ext|..] == ext
    ensures ext != [] <==> b != ".." && exists d :: 0 < d < |b| && b[d] == '.'
  {
    var d := LastIndexOf(b, '.');
    LastDotIsOnlyInnerDot(b);
    if d <= 0 || b == ".." then "" else b[d..]
  }

  /** The last dot sits past the first character exactly when some dot does. */
  lemma LastDotIsOnlyInnerDot(b: string)
    ensures LastIndexOf(b, '.') > 0 <==> exists d :: 0 < d < |b| && b[d] == '.'
  {
    var d := LastIndexOf(b, '.');
    if d > 0 {
      assert 0 < d < |b| && b[d] == '.';
    } else if d == 0 {
      forall k | 0 < k < |b|
        ensures b[k] != '.'
      {
        assert b[k] == b[1..][k - 1];
      }
    }
  }

  /** `path.extname`: the extension of the last segment of the path. */
  function ExtName(p: string): (ext: string)
    ensures ext == [] || (ext[0] == '.' && '.' !in ext[1..] && '/' !in ext)
    ensures ext != [] ==> |ext| < |BaseName(p)| && BaseName(p)[|BaseName(p)| - |ext|..] == ext
    ensures var b := BaseName(p); ext != [] <==> b != ".." && exists d :: 0 < d < |b| && b[d] == '.'
  {
    SegmentExt(BaseName(p))
  }

  /** `${type}-${id}-${Date.now()}${ext}` with the extension lower-cased. */
  function SavedImageName(kind: string, id: int, now: int, originalName: string): string
  {
    kind + "-" + IntToString(id) + "-" + IntToString(now) + ToLower(ExtName(originalName))
  }

  /** The path saveUploadedImage returns. */
  function SavedImagePath(kind: string, id: int, now: int, originalName: string): (path: string)
    ensures StartsWith(path, ImagesFolder)
  {
    assert (ImagesFolder + SavedImageName(kind, id, now, originalName))[..|ImagesFolder|] == ImagesFolder;
    ImagesFolder + SavedImageName(kind, id, now, originalName)
  }

  /** Lower-casing neither makes nor removes a dot or a slash. */
  lemma LowerKeepsDotsAndSlashes(s: string)
    ensures forall i :: 0 <= i < |s| ==> (ToLower(s)[i] == '.' <==> s[i] == '.') && (ToLower(s)[i] == '/' <==> s[i] == '/')
  {
  }

  lemma IntToStringHasNoDotOrSlash(n: int)
    ensures '.' !in IntToString(n) && '/' !in IntToString(n)
  {
    var digits := NatToString(if n < 0 then -n else n);
    assert IntToString(n) == (if n < 0 then "-" else "") + digits;
    assert '.' !in digits && '/' !in digits by {
      forall i | 0 <= i < |digits|
        ensures digits[i] != '.' && digits[i] != '/'
      {
        assert IsDecimalDigit(digits[i]);
      }
    }
  }

  /** A name without a slash, placed in a folder, is the last segment of the path. */
  lemma BaseNameInFolder(folder: string, name: string)
    requires folder != [] && folder[|folder| - 1] == '/'
    requires name != [] && '/' !in name
    ensures BaseName(folder + name) == name
  {
    var dir := folder[..|folder| - 1];
    var path := folder + name;
    assert folder == dir + ['/'];
    assert path == dir + ['/'] + name;
    assert path[|path| - 1] == name[|name| - 1];
    assert name[|name| - 1] in name;
    assert TrimTrailingSlashes(path) == path;
    LastIndexOfAfter(dir, '/', name);
    assert path[|dir| + 1..] == name;
  }

  /** The name saveUploadedImage builds holds no slash. */
  lemma SavedImageNameHasNoSlash(kind: string, id: int, now: int, originalName: string)
    requires '/' !in kind
    ensures '/' !in SavedImageName(kind, id, now, originalName)
  {
    var ext := ExtName(originalName);
    IntToStringHasNoDotOrSlash(id);
    IntToStringHasNoDotOrSlash(now);
    LowerKeepsDotsAndSlashes(ext);
    var a := kind + "-";
    var b := a + IntToString(id);
    var c := b + "-";
    var d := c + IntToString(now);
    assert '/' !in a;
    assert '/' !in b;
    assert '/' !in c;
    assert '/' !in d;
    assert '/' !in ToLower(ext);
  }

  /** The file name saveUploadedImage builds is the last segment of the path it returns. */
  lemma SavedImageNameIsBaseName(kind: string, id: int, now: int, originalName: string)
    requires kind != [] && '/' !in kind
    ensures BaseName(SavedImagePath(kind, id, now, originalName)) == SavedImageName(kind, id, now, originalName)
  {
    var name := SavedImageName(kind, id, now, originalName);
    SavedImageNameHasNoSlash(kind, id, now, originalName);
    assert ImagesFolder[|ImagesFolder| - 1] == '/';
    assert SavedImagePath(kind, id, now, originalName) == ImagesFolder + name;
    BaseNameInFolder(ImagesFolder, name);
  }

  /** A segment made of a dotless stem and an extension has that extension. */
  lemma SegmentExtOfStem(stem: string, ext: string)
    requires stem != [] && '.' !in stem
    requires ext == [] || (ext[0] == '.' && '.' !in ext[1..])
    ensures SegmentExt(stem + ext) == ext
  {
    var b := stem + ext;
    if ext == [] {
      assert b == stem;
    } else {
      PeelFirst(stem, ext);
      LastIndexOfAfter(stem, '.', ext[1..]);
      assert b[0] == stem[0];
      assert b[|stem|..] == ext;
    }
  }

  lemma PeelFirst(a: string, b: string)
    requires b != []
    ensures a + b == a + [b[0]] + b[1..]
  {
    assert b == [b[0]] + b[1..];
  }

  /** Lower-casing an extension keeps it an extension. */
  lemma LowerExtension(ext: string)
    requires ext == [] || (ext[0] == '.' && '.' !in ext[1..])
    ensures var lower := ToLower(ext); lower == [] || (lower[0] == '.' && '.' !in lower[1..])
  {
    var lower := ToLower(ext);
    LowerKeepsDotsAndSlashes(ext);
    if ext != [] {
      forall i | 0 <= i < |lower| - 1
        ensures lower[1..][i] != '.'
      {
        assert ext[1..][i] == ext[i + 1];
      }
    }
  }

  /**
    The saved file keeps the upload's extension, lower-cased: `path.extname`
    of the returned path is the lower-cased `path.extname` of the original name.
   */
  lemma SavedImageKeepsExtension(kind: string, id: int, now: int, originalName: string)
    requires kind != [] && '.' !in kind && '/' !in kind
    ensures ExtName(SavedImagePath(kind, id, now, originalName)) == ToLower(ExtName(originalName))
  {
    SavedImageNameIsBaseName(kind, id, now, originalName);
    var stem := kind + "-" + IntToString(id) + "-" + IntToString(now);
    IntToStringHasNoDotOrSlash(id);
    IntToStringHasNoDotOrSlash(now);
    assert '.' !in kind + "-";
    assert '.' !in kind + "-" + IntToString(id);
    assert '.' !in kind + "-" + IntToString(id) + "-";
    LowerExtension(ExtName(originalName));
    SegmentExtOfStem(stem, ToLower(ExtName(originalName)));
  }

  /** deleteImage removes a file only for a non-empty path under "/uploads/". */
  predicate DeletesFile(imagePath: string)
  {
    imagePath != "" && StartsWith(imagePath, "/uploads/")
  }

  /** Every path this module hands out is one its deleteImage will act on. */
  lemma OwnPathsAreDeletable(boxNumber: int, kind: string, id: int, now: int, originalName: string)
    ensures DeletesFile(QrCodePath(boxNumber))
    ensures DeletesFile(QrCodePathById(id))
    ensures DeletesFile(SavedImagePath(kind, id, now, originalName))
  {
    FoldersAreUnderUploads();
    UnderFolderIsDeletable(QrCodePath(boxNumber), QrFolder);
    UnderFolderIsDeletable(QrCodePathById(id), QrFolder);
    UnderFolderIsDeletable(SavedImagePath(kind, id, now, originalName), ImagesFolder);
  }

  lemma FoldersAreUnderUploads()
    ensures StartsWith(QrFolder, "/uploads/") && StartsWith(ImagesFolder, "/uploads/")
  {
    assert QrFolder[..|"/uploads/"|] == "/uploads/";
    assert ImagesFolder[..|"/uploads/"|] == "/uploads/";
  }

  /** A path inside a folder under "/uploads/" is one deleteImage acts on. */
  lemma UnderFolderIsDeletable(path: string, folder: string)
    requires StartsWith(path, folder) && StartsWith(folder, "/uploads/")
    ensures DeletesFile(path)
  {
    assert path[..|"/uploads/"|] == folder[..|"/uploads/"|];
  }

  const ImageTypes: seq<string> := ["image/jpeg", "image/jpg", "image/png", "image/gif", "image/webp"]

  /** `isValidImageType` of this module: the same five-type allow-list. */
  function IsValidImageType(mimeType: string): (ok: bool)
    ensures ok <==> mimeType == "image/jpeg" || mimeType == "image/jpg" || mimeType == "image/png" || mimeType == "image/gif" || mimeType == "image/webp"
  {
    mimeType in ImageTypes
  }

  /** `validateImageSize` of this module: at most 10 MiB. */
  function ValidateImageSize(size: int): (ok: bool)
    ensures ok <==> size <= 10485760
  {
    size <= 10 * 1024 * 1024
  }
}
