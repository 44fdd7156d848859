/**
 * The file controller: upload validation, the stored name and its
 * date-based directory, the public URL, and the info lookup that maps a URL
 * back to the stored file. The upload directory is a map from the path below
 * the configured upload root to the stored file; the clock, the random UUID
 * and I/O failures are parameters.
 */
module Files {
  import opened Common
  import opened Text

  const DefaultMaxFileSize: int := 10485760
  const FilesPrefix: string := "/files/"

  const FileEmpty: string := "文件不能为空"
  const FileTooLarge: string := "文件大小不能超过10MB"
  const UnsupportedType: string := "不支持的文件类型"
  const UploadFailedPrefix: string := "文件上传失败: "
  const FileMissing: string := "文件不存在"
  const InfoFailedPrefix: string := "获取文件信息失败: "

  /** The uploaded part: its size in bytes, declared content type and original file name (each may be null). */
  datatype MultipartFile = MultipartFile(size: nat, contentType: Option<string>, originalFilename: Option<string>)

  /** A stored file: size in bytes and last-modified time in milliseconds. */
  datatype StoredFile = StoredFile(size: nat, lastModified: int)

  /** The upload directory, keyed by the path below the upload root. */
  type Directory = map<string, StoredFile>

  datatype FileUploadResponse = FileUploadResponse(
    filename: string, originalName: Option<string>, url: string, size: nat, contentType: Option<string>)

  datatype FileInfo = FileInfo(name: string, size: nat, lastModified: int, present: bool)

  /** A calendar date from the clock. */
  datatype Date = Date(year: nat, month: nat, day: nat)

  predicate ValidDate(d: Date) {
    1 <= d.year <= 9999 && 1 <= d.month <= 12 && 1 <= d.day <= 31
  }

  /**
   * What the environment supplies to one upload: the random UUID string, the
   * date and time of day, and whether writing failed with an `IOException`
   * (its message may be null).
   */
  datatype UploadEnv = UploadEnv(uuid: string, today: Date, millis: int, ioFailure: Option<Option<string>>)

  /** `isValidFileType`: avatars and images need an image type, audio an audio type, anything else is refused. */
  predicate IsValidFileType(contentType: Option<string>, kind: string) {
    if contentType.None? then false
    else if kind == "avatar" || kind == "image" then StartsWith(contentType.value, "image/")
    else if kind == "audio" then StartsWith(contentType.value, "audio/")
    else false
  }

  /** The index of the last occurrence of `c` in `s`, as `lastIndexOf` finds it. */
  function LastIndexOf(s: string, c: char): (r: Option<nat>)
    ensures r.None? <==> c !in s
    ensures r.Some? ==> r.value < |s| && s[r.value] == c && c !in s[r.value + 1..]
  {
    if s == [] then None
    else if s[|s| - 1] == c then Some(|s| - 1)
    else
      var r := LastIndexOf(s[..|s| - 1], c);
      assert s == s[..|s| - 1] + [s[|s| - 1]];
      if r.Some? then
        assert s[r.value + 1..] == s[..|s| - 1][r.value + 1..] + [s[|s| - 1]];
        r
      else r
  }

  /**
   * `getFileExtension`: empty for a null name or a name without a dot;
   * otherwise the suffix starting at the last dot, which is a suffix of the
   * name, starts with the dot and holds no further dot.
   */
  function FileExtension(name: Option<string>): (r: string)
    ensures r == [] <==> name.None? || '.' !in name.value
    ensures r != [] ==>
      && r[0] == '.' && '.' !in r[1..]
      && |r| <= |name.value| && name.value == name.value[..|name.value| - |r|] + r
  {
    if name.None? || '.' !in name.value then []
    else
      var i := LastIndexOf(name.value, '.').value;
      assert name.value == name.value[..i] + name.value[i..];
      name.value[i..]
  }

  /** The date directory in the pattern yyyy/MM/dd. */
  function DatePath(d: Date): (r: string)
    requires ValidDate(d)
    ensures |r| == 10 && r[4] == '/' && r[7] == '/'
    ensures AllDigits(r[..4]) && DigitsValue(r[..4]) == d.year
    ensures AllDigits(r[5..7]) && DigitsValue(r[5..7]) == d.month
    ensures AllDigits(r[8..]) && DigitsValue(r[8..]) == d.day
  {
    assert Pow10(4) == 10000 && Pow10(2) == 100;
    var y, m, dd := ZeroPad(d.year, 4), ZeroPad(d.month, 2), ZeroPad(d.day, 2);
    var r := y + "/" + m + "/" + dd;
    assert r[..4] == y && r[5..7] == m && r[8..] == dd;
    r
  }

  /** Different days are stored in different directories. */
  lemma DatePathInjective(a: Date, b: Date)
    requires ValidDate(a) && ValidDate(b) && a != b
    ensures DatePath(a) != DatePath(b)
  {
    var pa, pb := DatePath(a), DatePath(b);
    assert DigitsValue(pa[..4]) == a.year && DigitsValue(pa[5..7]) == a.month && DigitsValue(pa[8..]) == a.day;
  }

  /** The stored file name: the UUID followed by the original extension. */
  function StoredName(uuid: string, originalFilename: Option<string>): string {
    uuid + FileExtension(originalFilename)
  }

  /** The path below the upload root: type, date directory, stored name. */
  function RelativePath(kind: string, today: Date, filename: string): string
    requires ValidDate(today)
  {
    kind + "/" + DatePath(today) + "/" + filename
  }

  /** Why an upload is refused before anything is written, in the order the checks run. */
  function UploadRefusal(file: MultipartFile, kind: string, maxFileSize: int): (r: Option<string>)
    ensures r == Some(FileEmpty) <==> file.size == 0
    ensures r == Some(FileTooLarge) <==> 0 < file.size && file.size > maxFileSize
    ensures r == Some(UnsupportedType) <==>
      0 < file.size <= maxFileSize && !IsValidFileType(file.contentType, kind)
    ensures r.None? <==> 0 < file.size <= maxFileSize && IsValidFileType(file.contentType, kind)
  {
    if file.size == 0 then Some(FileEmpty)
    else if file.size > maxFileSize then Some(FileTooLarge)
    else if !IsValidFileType(file.contentType, kind) then Some(UnsupportedType)
    else None
  }

  /** `uploadFile`: the directory after the upload and the response. */
  function UploadFile(dir: Directory, file: MultipartFile, kind: string, maxFileSize: int, env: UploadEnv)
    : (r: (Directory, Response<FileUploadResponse>))
    requires ValidDate(env.today)
    ensures r.1.Success? <==> UploadRefusal(file, kind, maxFileSize).None? && env.ioFailure.None?
    ensures r.1.Failure? ==> r.0 == dir
    ensures r.1.Failure? && UploadRefusal(file, kind, maxFileSize).Some? ==>
      r.1.message == UploadRefusal(file, kind, maxFileSize).value
    ensures r.1.Failure? && UploadRefusal(file, kind, maxFileSize).None? ==>
      r.1.message == UploadFailedPrefix + JavaString(env.ioFailure.value)
    ensures r.1.Success? ==>
      var filename := StoredName(env.uuid, file.originalFilename);
      var path := RelativePath(kind, env.today, filename);
      && r.1.data == FileUploadResponse(filename, file.originalFilename, FilesPrefix + path, file.size, file.contentType)
      && r.0 == dir[path := StoredFile(file.size, env.millis)]
  {
    match UploadRefusal(file, kind, maxFileSize)
    case Some(message) => (dir, Failure(message))
    case None =>
      var filename := StoredName(env.uuid, file.originalFilename);
      var path := RelativePath(kind, env.today, filename);
      if env.ioFailure.Some? then (dir, Failure(UploadFailedPrefix + JavaString(env.ioFailure.value)))
      else
        (dir[path := StoredFile(file.size, env.millis)],
         Success(FileUploadResponse(filename, file.originalFilename, FilesPrefix + path, file.size, file.contentType)))
  }

  /** `File.getName()`: the last path component. */
  function LastSegment(path: string): (r: string)
    ensures '/' !in r
    ensures '/' !in path ==> r == path
    ensures |r| <= |path| && r == path[|path| - |r|..]
  {
    match LastIndexOf(path, '/')
    case None => path
    case Some(i) => path[i + 1..]
  }

  /**
   * `getFileInfo`: every "/files/" is removed from the URL and the rest is
   * looked up below the upload root. `failure` is an exception raised while
   * resolving the path (its message may be null).
   */
  function GetFileInfo(dir: Directory, url: string, failure: Option<Option<string>>): (r: Response<FileInfo>)
    ensures r.Success? <==> failure.None? && RemoveAll(url, FilesPrefix) in dir
    ensures r.Success? ==>
      var stored := dir[RemoveAll(url, FilesPrefix)];
      r.data == FileInfo(LastSegment(RemoveAll(url, FilesPrefix)), stored.size, stored.lastModified, true)
    ensures r.Failure? ==>
      r.message == if failure.Some? then InfoFailedPrefix + JavaString(failure.value) else FileMissing
  {
    if failure.Some? then Failure(InfoFailedPrefix + JavaString(failure.value))
    else
      var path := RemoveAll(url, FilesPrefix);
      if path !in dir then Failure(FileMissing)
      else
        var stored := dir[path];
        Success(FileInfo(LastSegment(path), stored.size, stored.lastModified, true))
  }

  /** Removing a prefix that is itself the removed target leaves the removal of the rest. */
  lemma RemoveLeadingTarget(target: string, s: string)
    requires target != []
    ensures RemoveAll(target + s, target) == RemoveAll(s, target)
  {
    assert (target + s)[..|target|] == target;
    assert (target + s)[|target|..] == s;
  }

  /**
   * An uploaded file's URL leads the info lookup back to it, with the size
   * and time it was stored with, provided its path below the upload root
   * contains no "/files/" of its own.
   */
  lemma {:induction false} UploadedUrlResolves(dir: Directory, file: MultipartFile, kind: string, maxFileSize: int, env: UploadEnv)
    requires ValidDate(env.today)
    requires UploadFile(dir, file, kind, maxFileSize, env).1.Success?
    requires !Contains(RelativePath(kind, env.today, StoredName(env.uuid, file.originalFilename)), FilesPrefix)
    ensures var (dir', response) := UploadFile(dir, file, kind, maxFileSize, env);
            GetFileInfo(dir', response.data.url, None)
              == Success(FileInfo(LastSegment(RelativePath(kind, env.today, response.data.filename)), file.size, env.millis, true))
  {
    var path := RelativePath(kind, env.today, StoredName(env.uuid, file.originalFilename));
    RemoveLeadingTarget(FilesPrefix, path);
    RemoveAbsent(path, FilesPrefix);
  }

  /** When neither the UUID nor the extension holds a separator, the info lookup names the file by its stored name. */
  lemma {:induction false} StoredNameIsLastSegment(kind: string, today: Date, filename: string)
    requires ValidDate(today) && '/' !in filename
    ensures LastSegment(RelativePath(kind, today, filename)) == filename
  {
    var path := RelativePath(kind, today, filename);
    var prefix := kind + "/" + DatePath(today) + "/";
    assert path == prefix + filename;
    assert path[|prefix| - 1] == '/';
    var i := LastIndexOf(path, '/').value;
    forall j | i < j < |path| ensures path[j] != '/' {
      assert path[j] == path[i + 1..][j - i - 1];
    }
    forall j | |prefix| <= j < |path| ensures path[j] != '/' {
      assert path[j] == filename[j - |prefix|];
    }
    assert i == |prefix| - 1;
  }

  /** The three upload endpoints accept exactly the content types of their kind. */
  lemma EndpointTypes(contentType: string)
    ensures IsValidFileType(Some(contentType), "avatar") <==> StartsWith(contentType, "image/")
    ensures IsValidFileType(Some(contentType), "image") <==> StartsWith(contentType, "image/")
    ensures IsValidFileType(Some(contentType), "audio") <==> StartsWith(contentType, "audio/")
    ensures !IsValidFileType(None, "avatar") && !IsValidFileType(None, "image") && !IsValidFileType(None, "audio")
  {
  }
}
