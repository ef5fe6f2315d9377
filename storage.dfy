/**
  lib/storage.ts: the "images" storage bucket. Object keys are built from the
  record kind, its id, a timestamp and the file's extension; an image is later
  removed by reading the key back out of its public URL.
 */
module Storage {
  import opened Wrappers
  import opened Strings
  import opened Store

  /** An uploaded file as the handlers see it. */
  datatype ImageFile = ImageFile(name: string, mime: string, size: int)

  const ImageTypes: seq<string> := ["image/jpeg", "image/jpg", "image/png", "image/gif", "image/webp"]

  /** 10 MiB. */
  const MaxImageSize: int := 10 * 1024 * 1024

  /** `isValidImageType`: the MIME type is on the allow-list. */
  function IsValidImageType(mime: string): (ok: bool)
    ensures ok <==> mime == "image/jpeg" || mime == "image/jpg" || mime == "image/png" || mime == "image/gif" || mime == "image/webp"
  {
    mime in ImageTypes
  }

  /** `validateImageSize`: at most 10 MiB, the limit itself included. */
  function ValidateImageSize(size: int): (ok: bool)
    ensures ok <==> size <= 10485760
  {
    size <= MaxImageSize
  }

  /** `name.split('.').pop()`: the text after the last dot, or the whole name when it has none. */
  function Extension(name: string): (ext: string)
    ensures '.' !in ext
    ensures '.' !in name ==> ext == name
  {
    var parts := Split(name, '.');
    SplitPartsAreFree(name, '.');
    parts[|parts| - 1]
  }

  /** `${type}-${id}-${timestamp}.${ext}`. */
  function FileName(kind: string, id: int, now: int, name: string): string
  {
    kind + "-" + IntToString(id) + "-" + IntToString(now) + "." + Extension(name)
  }

  /** `${type}s/${fileName}`: the object key in the bucket. */
  function ObjectKey(kind: string, id: int, now: int, name: string): string
  {
    kind + "s/" + FileName(kind, id, now, name)
  }

  /** `pathParts.slice(-2).join('/')` with `pathParts = path.split('/')`: the last two segments of a path. */
  function KeyOfPath(path: string): string
  {
    var parts := Split(path, '/');
    Join(if |parts| >= 2 then parts[|parts| - 2..] else parts, '/')
  }

  lemma IntToStringHasNoSlash(n: int)
    ensures '/' !in IntToString(n)
  {
    var s := IntToString(n);
    var digits := NatToString(if n < 0 then -n else n);
    assert forall i :: 0 <= i < |digits| ==> IsDecimalDigit(digits[i]);
  }

  /** The file name holds no slash as long as the kind and the extension hold none. */
  lemma FileNameHasNoSlash(kind: string, id: int, now: int, name: string)
    requires '/' !in kind && '/' !in Extension(name)
    ensures '/' !in FileName(kind, id, now, name)
  {
    IntToStringHasNoSlash(id);
    IntToStringHasNoSlash(now);
  }

  /** The last two segments of `prefix/folder/file` are `folder/file`. */
  lemma LastTwoSegments(prefix: string, folder: string, file: string)
    requires '/' !in folder && '/' !in file
    ensures KeyOfPath(prefix + "/" + folder + "/" + file) == folder + "/" + file
  {
    var path := prefix + "/" + folder + "/" + file;
    assert path == (prefix + ['/'] + folder) + ['/'] + file;
    SplitAtLast(prefix + ['/'] + folder, '/', file);
    SplitAtLast(prefix, '/', folder);
    var parts := Split(path, '/');
    assert parts == Split(prefix, '/') + [folder] + [file];
    assert parts[|parts| - 2..] == [folder, file];
    assert Join([folder, file], '/') == Join([folder], '/') + ['/'] + file;
  }

  /**
    Reading the key back from any URL path that ends in "/" + key gives the key:
    what deleteImage removes is what uploadImage stored, as long as neither the
    kind nor the extension contains a slash.
   */
  lemma KeyRoundTrip(prefix: string, kind: string, id: int, now: int, name: string)
    requires '/' !in kind && '/' !in Extension(name)
    ensures KeyOfPath(prefix + "/" + ObjectKey(kind, id, now, name)) == ObjectKey(kind, id, now, name)
  {
    var file := FileName(kind, id, now, name);
    var folder := kind + "s";
    FileNameHasNoSlash(kind, id, now, name);
    LastTwoSegments(prefix, folder, file);
    Regroup(prefix, kind, file);
  }

  lemma Regroup(prefix: string, kind: string, file: string)
    ensures prefix + "/" + (kind + "s/" + file) == prefix + "/" + (kind + "s") + "/" + file
  {
    assert "s/" == "s" + "/";
  }

  /**
    uploadImage: store the file under its key (no upsert, so an existing key is
    an error, as is a failure of the storage service) and return its public
    URL, `publicBase + "/" + key`.
   */
  method UploadImage(db: Database, file: ImageFile, kind: string, id: int, now: int, publicBase: string, serviceFails: bool)
    returns (r: Result<string>)
    modifies db`bucket
    ensures var key := ObjectKey(kind, id, now, file.name);
      && (r.Ok? <==> !serviceFails && key !in old(db.bucket))
      && (r.Ok? ==> r.value == publicBase + "/" + key && db.bucket == old(db.bucket) + {key})
      && (r.Err? ==> StartsWith(r.message, "Failed to upload image: ") && db.bucket == old(db.bucket))
  {
    var key := ObjectKey(kind, id, now, file.name);
    if serviceFails || key in db.bucket {
      var reason := if serviceFails then "storage service error" else "The resource already exists";
      return Err("Failed to upload image: " + reason);
    }
    db.bucket := db.bucket + {key};
    r := Ok(publicBase + "/" + key);
  }

  /** The message of the TypeError `new URL` throws for text that is no absolute URL. */
  const InvalidUrl: string := "Invalid URL"

  /**
    deleteImage: an empty path is ignored; otherwise `new URL(imagePath)`
    either throws (the call rejects, nothing is removed) or yields the URL
    whose key is removed, and a failing removal only logs a warning. Whether
    the text parses as an absolute URL is the parameter `urlParses`.
    The `Ok` value says whether a warning was logged.
   */
  method DeleteImage(db: Database, imagePath: string, urlParses: bool, serviceFails: bool) returns (r: Result<bool>)
    modifies db`bucket
    ensures imagePath == "" ==> db.bucket == old(db.bucket) && r == Ok(false)
    ensures imagePath != "" && !urlParses ==> db.bucket == old(db.bucket) && r == Err(InvalidUrl)
    ensures imagePath != "" && urlParses && serviceFails ==> db.bucket == old(db.bucket) && r == Ok(true)
    ensures imagePath != "" && urlParses && !serviceFails ==> db.bucket == old(db.bucket) - {KeyOfPath(imagePath)} && r == Ok(false)
  {
    if imagePath == "" {
      return Ok(false);
    }
    if !urlParses {
      return Err(InvalidUrl);
    }
    var key := KeyOfPath(imagePath);
    if serviceFails {
      return Ok(true);
    }
    db.bucket := db.bucket - {key};
    r := Ok(false);
  }

  /** What was uploaded is what deleting its URL removes. */
  lemma UploadThenDelete(bucket: set<string>, publicBase: string, kind: string, id: int, now: int, name: string)
    requires '/' !in kind && '/' !in Extension(name)
    requires ObjectKey(kind, id, now, name) !in bucket
    ensures (bucket + {ObjectKey(kind, id, now, name)}) - {KeyOfPath(publicBase + "/" + ObjectKey(kind, id, now, name))} == bucket
  {
    KeyRoundTrip(publicBase, kind, id, now, name);
  }
}
