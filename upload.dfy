/**
 * `POST /api/upload`: store an image under `public/uploads` with a
 * timestamped, sanitised name and return its public URL.
 */
module Upload {
  import opened Wrappers
  import opened Text

  /** The characters `[a-zA-Z0-9.-]` the name keeps. */
  predicate Kept(c: char) {
    ('a' <= c <= 'z') || ('A' <= c <= 'Z') || ('0' <= c <= '9') || c == '.' || c == '-'
  }

  /** The characters a sanitised name may hold. */
  predicate SafeChar(c: char) {
    Kept(c) || c == '_'
  }

  /**
   * The replacement of one character. The pattern has no `u` flag, so it
   * matches UTF-16 code units and a character outside the Basic
   * Multilingual Plane becomes two underscores.
   */
  function SanitizeChar(c: char): (r: string)
    ensures Utf16Length(r) == Utf16Units(c)
  {
    if Kept(c) then [c] else if IsAstral(c) then "__" else "_"
  }

  /** `name.replace(/[^a-zA-Z0-9.-]/g, "_")`. */
  function Sanitize(name: string): (r: string)
    ensures Utf16Length(r) == Utf16Length(name)
    ensures forall i :: 0 <= i < |r| ==> SafeChar(r[i])
  {
    if name == [] then []
    else
      var r := SanitizeChar(name[0]) + Sanitize(name[1..]);
      Utf16LengthAppend(SanitizeChar(name[0]), Sanitize(name[1..]));
      r
  }

  /** A name made only of safe characters is left as it is. */
  lemma {:induction false} SafeNameUnchanged(name: string)
    requires forall i :: 0 <= i < |name| ==> SafeChar(name[i])
    ensures Sanitize(name) == name
  {
    if name != [] {
      SafeNameUnchanged(name[1..]);
    }
  }

  /** Sanitising twice is sanitising once. */
  lemma SanitizeIdempotent(name: string)
    ensures Sanitize(Sanitize(name)) == Sanitize(name)
  {
    SafeNameUnchanged(Sanitize(name));
  }

  /** Without characters beyond U+FFFF the name keeps its length and each kept character its place. */
  lemma {:induction false} SanitizePointwise(name: string)
    requires forall i :: 0 <= i < |name| ==> !IsAstral(name[i])
    ensures |Sanitize(name)| == |name|
    ensures forall i :: 0 <= i < |name| ==> Sanitize(name)[i] == if Kept(name[i]) then name[i] else '_'
  {
    if name != [] {
      SanitizePointwise(name[1..]);
      assert Sanitize(name) == SanitizeChar(name[0]) + Sanitize(name[1..]);
    }
  }

  datatype UploadedFile = UploadedFile(name: string, mimeType: string)

  datatype UploadResponse =
    | NoFile400                                // "No file uploaded"
    | NotImage400                              // "File must be an image"
    | Uploaded(filename: string, imageUrl: string)
    | UploadFailed500                          // the write threw

  /** The stored name: the upload time in milliseconds, a dash, the sanitised name. */
  function StoredName(timestamp: nat, name: string): string {
    IntToString(timestamp) + "-" + Sanitize(name)
  }

  /** `POST /api/upload` for the form's `file` entry, at time `timestamp`; `writeOk` says whether the write succeeds. */
  function Post(file: Option<UploadedFile>, timestamp: nat, writeOk: bool): (r: UploadResponse)
    ensures r.NoFile400? <==> file.None?
    ensures r.NotImage400? <==> file.Some? && !StartsWith(file.value.mimeType, "image/")
    ensures r.Uploaded? <==> file.Some? && StartsWith(file.value.mimeType, "image/") && writeOk
    ensures r.Uploaded? ==> r.filename == StoredName(timestamp, file.value.name) && r.imageUrl == "/uploads/" + r.filename
  {
    match file
    case None => NoFile400
    case Some(f) =>
      if !StartsWith(f.mimeType, "image/") then NotImage400
      else if !writeOk then UploadFailed500
      else
        var filename := StoredName(timestamp, f.name);
        Uploaded(filename, "/uploads/" + filename)
  }

  /**
   * The stored name stays inside the uploads directory: it has no path
   * separator and starts with a digit, so it is never `.` or `..`.
   */
  lemma StoredNameIsPlainFileName(timestamp: nat, name: string)
    ensures var n := StoredName(timestamp, name);
            n != [] && IsDigit(n[0]) && forall i :: 0 <= i < |n| ==> n[i] != '/' && n[i] != '\\'
  {
    var t := IntToString(timestamp);
    var s := Sanitize(name);
    var n := StoredName(timestamp, name);
    assert t == NatToString(timestamp);
    assert n == t + ("-" + s);
    forall i | 0 <= i < |n|
      ensures n[i] != '/' && n[i] != '\\'
    {
      if i < |t| {
        assert n[i] == t[i] && IsDigit(t[i]);
      } else if i > |t| {
        assert n[i] == s[i - |t| - 1] && SafeChar(s[i - |t| - 1]);
      }
    }
    assert n[0] == t[0];
  }

  /** The upload time can be read back from the stored name. */
  lemma TimestampReadBack(timestamp: nat, name: string)
    ensures var t := IntToString(timestamp);
            var n := StoredName(timestamp, name);
            n[..|t|] == t && AllDigits(t) && ParseDigits(t) == timestamp && n[|t|] == '-'
  {
    ParseNatToString(timestamp);
  }
}
