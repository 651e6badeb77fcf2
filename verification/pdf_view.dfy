/** backend/api/latex/views/pdf_view.py: the guard checks `PDFView.get` applies to
    the requested path before it serves a file from `MEDIA_ROOT`. */
module PdfView {
  import opened Text
  import FileStorage

  const INVALID_PATH_MESSAGE := "Invalid file path"
  const ONLY_PDF_MESSAGE := "Only PDF files are allowed"
  const NOT_FOUND_MESSAGE := "PDF file not found"

  /** The outcome of the checks: a relative path that may be served, or the
      message of the `Http404` raised. */
  datatype PathCheck = Accepted(path: string) | Rejected(message: string)

  /** The path with its leading slashes removed, then refused when it contains
      `..` (or, in a test that cannot succeed, starts with `/`) and when it
      does not end in `.pdf`. */
  function CheckPath(filePath: string): (r: PathCheck)
    ensures r.Accepted? <==>
      !Contains(LStrip(filePath, '/'), "..") && EndsWith(LStrip(filePath, '/'), FileStorage.PDF_SUFFIX)
    ensures r.Accepted? ==> r.path == LStrip(filePath, '/')
    ensures Contains(LStrip(filePath, '/'), "..") ==> r == Rejected(INVALID_PATH_MESSAGE)
    ensures !Contains(LStrip(filePath, '/'), "..") && !EndsWith(LStrip(filePath, '/'), FileStorage.PDF_SUFFIX) ==>
      r == Rejected(ONLY_PDF_MESSAGE)
  {
    var path := LStrip(filePath, '/');
    if Contains(path, "..") || StartsWith(path, "/") then Rejected(INVALID_PATH_MESSAGE)
    else if !EndsWith(path, FileStorage.PDF_SUFFIX) then Rejected(ONLY_PDF_MESSAGE)
    else Accepted(path)
  }

  /** After the strip the path never starts with `/`: that half of the first
      check never fires. */
  lemma SlashCheckNeverFires(filePath: string)
    ensures !StartsWith(LStrip(filePath, '/'), "/")
  {
    var path := LStrip(filePath, '/');
    assert path == [] || path[0] != '/';
  }

  /** An accepted path is relative, so joining it to the media root keeps the
      root in front. */
  lemma AcceptedStaysUnderRoot(root: string, filePath: string)
    requires CheckPath(filePath).Accepted?
    ensures StartsWith(FileStorage.PathJoin(root, CheckPath(filePath).path), root)
  {
    SlashCheckNeverFires(filePath);
    var path := CheckPath(filePath).path;
    var joined := FileStorage.PathJoin(root, path);
    if root == [] || EndsWith(root, "/") {
      assert joined == root + path;
    } else {
      assert joined == root + "/" + path;
    }
    assert joined[..|root|] == root;
  }

  /** `PDFView.get` for the files under `storage`: the path checks, then the
      existence check on the joined path. */
  function Get(storage: FileStorage.MediaStorage, filePath: string): (r: PathCheck)
    reads storage
    ensures r.Accepted? ==> r.path == FileStorage.PathJoin(storage.root, LStrip(filePath, '/'))
    ensures r.Accepted? ==> r.path in storage.files
    ensures CheckPath(filePath).Rejected? ==> r == CheckPath(filePath)
    ensures CheckPath(filePath).Accepted? ==>
      (r.Accepted? <==> FileStorage.PathJoin(storage.root, CheckPath(filePath).path) in storage.files)
    ensures CheckPath(filePath).Accepted? && r.Rejected? ==> r.message == NOT_FOUND_MESSAGE
  {
    match CheckPath(filePath)
    case Rejected(message) => Rejected(message)
    case Accepted(path) =>
      var fullPath := FileStorage.PathJoin(storage.root, path);
      if fullPath !in storage.files then Rejected(NOT_FOUND_MESSAGE)
      else Accepted(fullPath)
  }

  /** Round trip with the storage: the tail of any URL `get_file_url` builds
      for a `.pdf` path without `..` passes every check, and names the path
      without its leading slashes. */
  lemma StoredPdfUrlAccepted(mediaUrl: string, path: string)
    requires EndsWith(path, FileStorage.PDF_SUFFIX)
    requires !Contains(path, "..")
    ensures CheckPath(FileStorage.GetFileUrl(mediaUrl, path)[|FileStorage.PDF_ENDPOINT|..])
         == Accepted(LStrip(path, '/'))
  {
    var tail := FileStorage.GetFileUrl(mediaUrl, path)[|FileStorage.PDF_ENDPOINT|..];
    FileStorage.PdfUrlTail(mediaUrl, path);
    assert tail == LStrip(path, '/');
    assert LStrip(tail, '/') == tail;
    AbsentFromSuffix(path, |path| - |tail|, "..");
  }
}
