/** The upload routes: a customer uploads a job file, which is checked
    against an extension whitelist and a size ceiling and stored under a
    generated key; any signed-in user downloads a file by its key. */
module Uploads {
  import opened Wrappers
  import opened Text
  import opened Enums
  import opened Models
  import opened Storage

  const BadRequest: nat := 400
  const Forbidden: nat := 403
  const NotFound: nat := 404

  const AllowedExtensions: set<string> :=
    {".pdf", ".jpg", ".jpeg", ".png", ".gif", ".tiff", ".tif", ".psd", ".ai", ".eps", ".svg", ".doc", ".docx", ".zip"}

  /** 50 MiB. */
  const MaxFileSize: nat := 50 * 1024 * 1024

  const OctetStream: string := "application/octet-stream"

  const ContentTypes: map<string, string> := map[
    ".pdf" := "application/pdf",
    ".jpg" := "image/jpeg",
    ".jpeg" := "image/jpeg",
    ".png" := "image/png",
    ".gif" := "image/gif",
    ".tiff" := "image/tiff",
    ".tif" := "image/tiff",
    ".psd" := "image/vnd.adobe.photoshop",
    ".ai" := "application/postscript",
    ".eps" := "application/postscript",
    ".svg" := "image/svg+xml",
    ".doc" := "application/msword",
    ".docx" := "application/vnd.openxmlformats-officedocument.wordprocessingml.document",
    ".zip" := "application/zip"]

  const UnknownFilename: string := "unknown"
  const NotAllowedPrefix: string := "File type not allowed. Allowed types: "
  const TooLarge: string := "File too large. Maximum size is 50MB"
  const UploadFailedPrefix: string := "Failed to upload file: "
  const InvalidPath: string := "Invalid file path"
  const FileNotFound: string := "File not found"
  const RetrieveFailedPrefix: string := "Failed to retrieve file: "

  /** The whitelist and the MIME table name the same fourteen extensions, and
      every one of them has a type of its own. */
  lemma ContentTypesCoverWhitelist()
    ensures ContentTypes.Keys == AllowedExtensions
    ensures forall e :: e in ContentTypes ==> ContentTypes[e] != OctetStream
  {
    TableKeysAllowed();
    WhitelistTyped();
    TableTypesSpecific();
  }

  lemma TableKeysAllowed()
    ensures ContentTypes.Keys <= AllowedExtensions
  {
  }

  lemma WhitelistTyped()
    ensures AllowedExtensions <= ContentTypes.Keys
  {
  }

  lemma TableTypesSpecific()
    ensures forall e :: e in ContentTypes ==> ContentTypes[e] != OctetStream
  {
  }

  lemma TableTypesNonEmpty()
    ensures forall e :: e in ContentTypes ==> ContentTypes[e] != ""
  {
  }

  /** `get_file_extension`: the name's suffix, lower-cased. */
  function FileExtension(filename: string): (r: string)
    ensures r == [] || (|r| >= 2 && r[0] == '.')
    ensures Lower(r) == r
  {
    LowerIdempotent(Suffix(filename));
    Lower(Suffix(filename))
  }

  /** `is_allowed_file`: the lower-cased suffix is on the whitelist, so it
      is a real extension with an entry in the content-type table. */
  function IsAllowedFile(filename: string): (allowed: bool)
    ensures allowed <==> FileExtension(filename) in AllowedExtensions
    ensures allowed ==> FileExtension(filename) != "" && FileExtension(filename) in ContentTypes
  {
    ContentTypesCoverWhitelist();
    NoEmptyExtension();
    FileExtension(filename) in AllowedExtensions
  }

  lemma NoEmptyExtension()
    ensures "" !in AllowedExtensions
  {
  }

  /** `get_content_type`: the type the table gives the extension,
      application/octet-stream for any extension outside the whitelist. */
  function ContentType(filename: string): (r: string)
    ensures IsAllowedFile(filename) ==> r == ContentTypes[FileExtension(filename)] && r != OctetStream
    ensures !IsAllowedFile(filename) ==> r == OctetStream
    ensures r != ""
  {
    ContentTypesCoverWhitelist();
    TableTypesNonEmpty();
    var ext := Lower(FileExtension(filename));
    if ext in ContentTypes then ContentTypes[ext] else OctetStream
  }

  /** A missing or empty upload name stands for "unknown", which has no
      suffix and so is refused. */
  lemma UnknownNameRefused()
    ensures !IsAllowedFile(UnknownFilename)
  {
    assert LastIndexOf(UnknownFilename, '/') == None;
    assert PathName(UnknownFilename) == UnknownFilename;
    assert LastIndexOf(UnknownFilename, '.') == None;
  }

  /** A name made of a dot-free stem and an extension has that extension,
      lower-cased, as its file extension. The whitelist test and the MIME
      lookup see only that, so the extension's case does not matter. */
  lemma ExtensionOfName(stem: string, ext: string)
    requires stem != [] && forall j :: 0 <= j < |stem| ==> stem[j] != '.' && stem[j] != '/'
    requires |ext| >= 2 && ext[0] == '.'
    requires forall j :: 1 <= j < |ext| ==> ext[j] != '.' && ext[j] != '/'
    ensures FileExtension(stem + ext) == Lower(ext)
  {
    SuffixOfName(stem, ext);
  }

  /** `', '.join(...)`. */
  function JoinComma(items: seq<string>): (r: string)
    ensures items == [] ==> r == ""
    ensures |items| == 1 ==> r == items[0]
  {
    if items == [] then "" else if |items| == 1 then items[0] else items[0] + ", " + JoinComma(items[1..])
  }

  /** `file.filename or "unknown"`. */
  function UploadName(filename: Option<string>): (r: string)
    ensures r != ""
    ensures filename.Some? && filename.value != "" ==> r == filename.value
  {
    if filename.Some? && filename.value != "" then filename.value else UnknownFilename
  }

  datatype UploadResponse = UploadResponse(file_path: string, file_url: string, filename: string, size: nat)

  /** `upload_job_file`, with the fresh uuid and the storage outcome as
      parameters. `listing` is the order in which the whitelist set is
      iterated to build the refusal message: each extension once. The extension is checked
      before the size; an accepted file is stored under its generated key
      with its content type, and both the path and the url returned are
      that key. */
  method UploadJobFile(bucket: Bucket, u: User, filename: Option<string>, contents: seq<Byte>,
                       uuid: string, listing: seq<string>, uploadError: Option<string>)
    returns (r: Result<UploadResponse>)
    requires u.role == CUSTOMER
    requires (set e | e in listing) == AllowedExtensions
    requires forall i, j :: 0 <= i < j < |listing| ==> listing[i] != listing[j]
    modifies bucket
    ensures var name := UploadName(filename);
            !IsAllowedFile(name) ==> r == Err(BadRequest, NotAllowedPrefix + JoinComma(listing)) && unchanged(bucket)
    ensures var name := UploadName(filename);
            IsAllowedFile(name) && |contents| > MaxFileSize ==> r == Err(BadRequest, TooLarge) && unchanged(bucket)
    ensures var name := UploadName(filename);
            IsAllowedFile(name) && |contents| <= MaxFileSize && uploadError.Some? ==>
              r == Err(ServerError, UploadFailedPrefix + uploadError.value) && unchanged(bucket)
    ensures var name := UploadName(filename);
            var key := GenerateFileKey(u.id, name, uuid);
            IsAllowedFile(name) && |contents| <= MaxFileSize && uploadError.None? ==>
              r == Ok(UploadResponse(key, key, name, |contents|)) &&
              bucket.objects == old(bucket.objects)[key := StoredObject(contents, Some(ContentType(name)))]
  {
    var name := UploadName(filename);
    if !IsAllowedFile(name) {
      return Err(BadRequest, NotAllowedPrefix + JoinComma(listing));
    }
    if |contents| > MaxFileSize {
      return Err(BadRequest, TooLarge);
    }
    var key := GenerateFileKey(u.id, name, uuid);
    var contentType := ContentType(name);
    if uploadError.Some? {
      return Err(ServerError, UploadFailedPrefix + uploadError.value);
    }
    var stored := bucket.UploadFile(contents, key, Some(contentType));
    r := Ok(UploadResponse(stored, stored, name, |contents|));
  }

  /** The refusal message lists every allowed extension. */
  lemma RefusalListsWhitelist(listing: seq<string>, e: string)
    requires (set x | x in listing) == AllowedExtensions
    requires e in AllowedExtensions
    ensures Contains(NotAllowedPrefix + JoinComma(listing), e)
  {
    assert e in (set x | x in listing);
    JoinedListed(NotAllowedPrefix, listing, e);
  }

  /** Any listed item occurs in a message ending with the joined list. */
  lemma JoinedListed(prefix: string, listing: seq<string>, e: string)
    requires e in listing
    ensures Contains(prefix + JoinComma(listing), e)
  {
    var k :| 0 <= k < |listing| && listing[k] == e;
    var i := JoinedAt(listing, k);
    ContainsIff(prefix + JoinComma(listing), e);
    var full := prefix + JoinComma(listing);
    assert full[|prefix| + i..|prefix| + i + |e|] == JoinComma(listing)[i..i + |e|];
    assert OccursAt(full, e, |prefix| + i);
  }

  /** Where the k-th item sits in the joined text. */
  lemma {:induction false} JoinedAt(items: seq<string>, k: nat) returns (i: nat)
    requires k < |items|
    ensures OccursAt(JoinComma(items), items[k], i)
    decreases k
  {
    var j := JoinComma(items);
    if |items| == 1 {
      i := 0;
      assert j[0..|items[0]|] == items[0];
    } else if k == 0 {
      i := 0;
      assert j == items[0] + (", " + JoinComma(items[1..]));
      assert j[0..|items[0]|] == items[0];
    } else {
      var rest := JoinComma(items[1..]);
      var off := |items[0]| + 2;
      var i' := JoinedAt(items[1..], k - 1);
      assert j == (items[0] + ", ") + rest;
      assert j[off + i'..off + i' + |items[k]|] == rest[i'..i' + |items[k]|];
      i := off + i';
    }
  }

  datatype Download = Download(body: seq<Byte>, media_type: string, filename: string)

  /** `get_file`, with the outcome of reading an existing object as a
      parameter: 403 for a key outside "users/" before any lookup, 404 for a
      key with no object, else the object's bytes typed and named by the
      text after the key's last '/'. */
  function GetFile(bucket: Bucket, key: string, readError: Option<string>): (r: Result<Download>)
    reads bucket
    ensures !StartsWith(key, KeyPrefix) ==> r == Err(Forbidden, InvalidPath)
    ensures StartsWith(key, KeyPrefix) && !bucket.FileExists(key) ==> r == Err(NotFound, FileNotFound)
    ensures StartsWith(key, KeyPrefix) && bucket.FileExists(key) && readError.Some? ==>
              r == Err(ServerError, RetrieveFailedPrefix + readError.value)
    ensures r.Ok? ==> bucket.FileExists(key) && readError.None? &&
                      r.value == Download(bucket.FileContent(key), ContentType(AfterLastSlash(key)), AfterLastSlash(key))
  {
    if !StartsWith(key, KeyPrefix) then Err(Forbidden, InvalidPath)
    else if !bucket.FileExists(key) then Err(NotFound, FileNotFound)
    else if readError.Some? then Err(ServerError, RetrieveFailedPrefix + readError.value)
    else
      var name := AfterLastSlash(key);
      Ok(Download(bucket.FileContent(key), ContentType(name), name))
  }

  /** A file stored under its generated key downloads as the same bytes,
      named by its uuid and original extension, with the content type of the
      name it was uploaded under. */
  lemma UploadedFileDownloads(bucket: Bucket, u: User, name: string, uuid: string, contents: seq<Byte>)
    requires UuidText(uuid)
    requires GenerateFileKey(u.id, name, uuid) in bucket.objects
    requires bucket.objects[GenerateFileKey(u.id, name, uuid)].body == contents
    ensures GetFile(bucket, GenerateFileKey(u.id, name, uuid), None) ==
            Ok(Download(contents, ContentType(name), uuid + FileExtension(name)))
  {
    FileKeyKeepsExtension(u.id, name, uuid);
    StoredNameKeepsType(name, uuid);
  }

  /** The stored name `uuid + ext` has the same extension, hence the same
      content type, as the uploaded name. */
  lemma StoredNameKeepsType(name: string, uuid: string)
    requires UuidText(uuid)
    ensures FileExtension(uuid + FileExtension(name)) == FileExtension(name)
    ensures ContentType(uuid + FileExtension(name)) == ContentType(name)
  {
    var e := FileExtension(name);
    LoweredSuffixShape(name);
    SuffixOfName(uuid, e);
  }
}
