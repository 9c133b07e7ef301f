/** Object storage for job files. Keys have the form
    `users/{user_id}/{uuid}{ext}`. The bucket itself is a class whose one
    field maps each key to the stored object; `upload_file` writes it and
    the download handler reads it. */
module Storage {
  import opened Wrappers
  import opened Text

  type Byte = bv8

  const KeyPrefix: string := "users/"

  /** A uuid4 in its text form: non-empty, with no '.' and no '/'. */
  predicate UuidText(uuid: string) {
    uuid != [] && forall j :: 0 <= j < |uuid| ==> uuid[j] != '.' && uuid[j] != '/'
  }

  /** `generate_file_key`, with the fresh uuid as a parameter: the user's
      directory, the uuid, and the lower-cased suffix of the original name. */
  function GenerateFileKey(userId: nat, filename: string, uuid: string): (key: string)
    ensures StartsWith(key, KeyPrefix)
  {
    var rest := NatToString(userId) + "/" + uuid + Lower(Suffix(filename));
    StartsWithAppend(KeyPrefix, rest);
    KeyPrefix + rest
  }

  /** The stored name of a key is the uuid and the original extension
      lower-cased; with no extension it is the bare uuid. */
  lemma FileKeyKeepsExtension(userId: nat, filename: string, uuid: string)
    requires UuidText(uuid)
    ensures PathName(GenerateFileKey(userId, filename, uuid)) == uuid + Lower(Suffix(filename))
    ensures AfterLastSlash(GenerateFileKey(userId, filename, uuid)) == uuid + Lower(Suffix(filename))
    ensures Suffix(GenerateFileKey(userId, filename, uuid)) == Lower(Suffix(filename))
    ensures Suffix(filename) == [] ==> GenerateFileKey(userId, filename, uuid) ==
                                       KeyPrefix + NatToString(userId) + "/" + uuid
  {
    LoweredSuffixShape(filename);
    KeyRegroup(KeyPrefix, NatToString(userId), uuid, Lower(Suffix(filename)));
    SuffixOfStoredName(KeyPrefix + NatToString(userId), uuid, Lower(Suffix(filename)));
  }

  lemma KeyRegroup(p: string, n: string, u: string, e: string)
    ensures p + (n + "/" + u + e) == (p + n) + "/" + u + e
  {
  }

  /** Keys of different users never collide, whatever the uuids. */
  lemma FileKeysSeparateUsers(a: nat, b: nat, fa: string, fb: string, ua: string, ub: string)
    requires GenerateFileKey(a, fa, ua) == GenerateFileKey(b, fb, ub)
    ensures a == b
  {
    var sa, sb := NatToString(a), NatToString(b);
    var xa, xb := ua + Lower(Suffix(fa)), ub + Lower(Suffix(fb));
    KeyAfterPrefix(a, fa, ua);
    KeyAfterPrefix(b, fb, ub);
    DigitPrefixUnique(sa, sb, "/" + xa, "/" + xb);
    NatToStringInjective(a, b);
  }

  lemma KeyAfterPrefix(userId: nat, filename: string, uuid: string)
    ensures GenerateFileKey(userId, filename, uuid)[|KeyPrefix|..] ==
            NatToString(userId) + ("/" + (uuid + Lower(Suffix(filename))))
  {
    DropPrefix(KeyPrefix, NatToString(userId), uuid, Lower(Suffix(filename)));
  }

  lemma DropPrefix(p: string, n: string, u: string, e: string)
    ensures (p + (n + "/" + u + e))[|p|..] == n + ("/" + (u + e))
  {
    assert n + "/" + u + e == n + ("/" + (u + e));
  }

  /** A stored object and the content type it was uploaded with. */
  datatype StoredObject = StoredObject(body: seq<Byte>, content_type: Option<string>)

  class Bucket {
    var objects: map<string, StoredObject>

    constructor ()
      ensures objects == map[]
    {
      objects := map[];
    }

    /** `file_exists`. */
    predicate FileExists(key: string)
      reads this
    {
      key in objects
    }

    /** `get_file_content` of a key that exists. */
    function FileContent(key: string): seq<Byte>
      reads this
      requires FileExists(key)
    {
      objects[key].body
    }

    /** `upload_file`: stores the body under the key, with the content type
      when one is given, and returns that same key; no other object changes. */
    method UploadFile(body: seq<Byte>, key: string, contentType: Option<string>) returns (r: string)
      modifies this
      ensures r == key
      ensures objects == old(objects)[key := StoredObject(body, if contentType == Some("") then None else contentType)]
      ensures FileExists(key) && FileContent(key) == body
      ensures forall k :: k != key ==> (FileExists(k) <==> old(FileExists(k)))
    {
      var stored := if contentType == Some("") then None else contentType;
      objects := objects[key := StoredObject(body, stored)];
      r := key;
    }
  }
}
