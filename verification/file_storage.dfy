/** backend/app/utils/file_storage.py: where uploaded images, LaTeX sources and
    PDFs are stored under `MEDIA_ROOT`, the URL each stored file is served
    at, and the existence check and removal of a stored file.  The disk is the
    set of full paths of the files on it. */
module FileStorage {
  import opened Text

  /** The endpoint that serves PDFs (so that they can be framed). */
  const PDF_ENDPOINT := "/api/latex/pdf/"
  const PDF_SUFFIX := ".pdf"

  /** The default folders of `save_image`, `save_latex_file` and `save_pdf`. */
  const IMAGES_FOLDER := "images"
  const LATEX_FOLDER := "latex"
  const PDFS_FOLDER := "pdfs"

  /** `get_file_url(file_path)`, `mediaUrl` being `settings.MEDIA_URL`: a
      `.pdf` path is served by the PDF endpoint with its leading slashes
      removed, any other path under the media URL unchanged. */
  function GetFileUrl(mediaUrl: string, path: string): (url: string)
    ensures EndsWith(path, PDF_SUFFIX) ==>
      StartsWith(url, PDF_ENDPOINT) && url[|PDF_ENDPOINT|..] == LStrip(path, '/')
    ensures !EndsWith(path, PDF_SUFFIX) ==> url == mediaUrl + path
  {
    if EndsWith(path, PDF_SUFFIX) then PDF_ENDPOINT + LStrip(path, '/')
    else mediaUrl + path
  }

  /** The part of a PDF's URL after the endpoint still names a PDF and has no
      leading slash. */
  lemma PdfUrlTail(mediaUrl: string, path: string)
    requires EndsWith(path, PDF_SUFFIX)
    ensures EndsWith(GetFileUrl(mediaUrl, path)[|PDF_ENDPOINT|..], PDF_SUFFIX)
    ensures GetFileUrl(mediaUrl, path)[|PDF_ENDPOINT|..] == [] || GetFileUrl(mediaUrl, path)[|PDF_ENDPOINT|..][0] != '/'
    ensures |GetFileUrl(mediaUrl, path)[|PDF_ENDPOINT|..]| >= |PDF_SUFFIX|
  {
    var tail := LStrip(path, '/');
    var k := |path| - |tail|;
    assert path[|path| - |PDF_SUFFIX|] == '.';
    assert k <= |path| - |PDF_SUFFIX|;
    assert tail[|tail| - |PDF_SUFFIX|..] == path[|path| - |PDF_SUFFIX|..];
  }

  /** `os.path.join(a, b)` of two components. */
  function PathJoin(a: string, b: string): (r: string)
    ensures StartsWith(b, "/") ==> r == b
    ensures EndsWith(r, b)
  {
    if StartsWith(b, "/") then b
    else if a == [] || EndsWith(a, "/") then a + b
    else a + "/" + b
  }

  /** The file name `save_*` builds: `{prefix}_{timestamp}.{ext}`, or
      `{timestamp}.{ext}` without a prefix. */
  function FileName(prefix: string, timestamp: string, ext: string): (name: string)
    ensures EndsWith(name, timestamp + "." + ext)
    ensures prefix != [] ==> StartsWith(name, prefix + "_")
    ensures prefix == [] ==> name == timestamp + "." + ext
  {
    if prefix != [] then prefix + "_" + timestamp + "." + ext
    else timestamp + "." + ext
  }

  /** The relative path `save_*` stores a file under. */
  function StoragePath(folder: string, prefix: string, timestamp: string, ext: string): string {
    PathJoin(folder, FileName(prefix, timestamp, ext))
  }

  /** A `%Y%m%d%H%M%S%f` timestamp: decimal digits only. */
  predicate IsTimestamp(timestamp: string) {
    timestamp != [] && forall i :: 0 <= i < |timestamp| ==> '0' <= timestamp[i] <= '9'
  }

  /** `save_pdf` in its default folder stores a relative path under `pdfs/`,
      provided the prefix is not an absolute path (which `os.path.join` would
      keep instead of the folder). */
  lemma SavedPdfPath(prefix: string, timestamp: string)
    requires IsTimestamp(timestamp)
    requires prefix == [] || prefix[0] != '/'
    ensures StoragePath(PDFS_FOLDER, prefix, timestamp, "pdf")
         == PDFS_FOLDER + "/" + FileName(prefix, timestamp, "pdf")
  {
    var name := FileName(prefix, timestamp, "pdf");
    if prefix != [] {
      assert name[0] == prefix[0];
    } else {
      assert name[0] == timestamp[0];
    }
    assert !StartsWith(name, "/");
  }

  /** Such a PDF is served by the PDF endpoint under exactly its stored path. */
  lemma SavedPdfUrl(mediaUrl: string, prefix: string, timestamp: string)
    requires IsTimestamp(timestamp)
    requires prefix == [] || prefix[0] != '/'
    ensures GetFileUrl(mediaUrl, StoragePath(PDFS_FOLDER, prefix, timestamp, "pdf"))
         == PDF_ENDPOINT + StoragePath(PDFS_FOLDER, prefix, timestamp, "pdf")
  {
    var name := FileName(prefix, timestamp, "pdf");
    var path := StoragePath(PDFS_FOLDER, prefix, timestamp, "pdf");
    SavedPdfPath(prefix, timestamp);
    var tail := timestamp + "." + "pdf";
    assert EndsWith(tail, PDF_SUFFIX) by {
      assert tail[|tail| - 4..] == PDF_SUFFIX;
    }
    EndsWithTrans(name, tail, PDF_SUFFIX);
    EndsWithTrans(path, name, PDF_SUFFIX);
    assert path[0] == 'p';
  }

  /** The files under `MEDIA_ROOT`. */
  class MediaStorage {
    /** `settings.MEDIA_ROOT`. */
    const root: string
    /** The full paths of the files on disk. */
    var files: set<string>

    constructor (root: string, files: set<string>)
      ensures this.root == root && this.files == files
    {
      this.root := root;
      this.files := files;
    }

    /** `file_exists(file_path)`: an empty path is never there. */
    predicate FileExists(path: string)
      reads this
    {
      path != [] && PathJoin(root, path) in files
    }

    /** `FileSystemStorage.save(name)`: the file is written under the requested
        relative path when that is free; when it is taken, under the storage's
        alternative name, which inserts `_` and a random string (`random`) before
        the extension.  Django draws again until the name is free, so `random`
        stands for the draw that found a free name.  The relative path actually
        used is returned; no stored file is overwritten. */
    method Save(folder: string, prefix: string, timestamp: string, ext: string, random: string)
      returns (path: string)
      requires PathJoin(root, StoragePath(folder, prefix, timestamp, ext)) in files ==>
               PathJoin(root, StoragePath(folder, prefix, timestamp + "_" + random, ext)) !in files
      modifies this
      ensures PathJoin(root, path) !in old(files)
      ensures PathJoin(root, StoragePath(folder, prefix, timestamp, ext)) !in old(files) ==>
        path == StoragePath(folder, prefix, timestamp, ext)
      ensures PathJoin(root, StoragePath(folder, prefix, timestamp, ext)) in old(files) ==>
        path == StoragePath(folder, prefix, timestamp + "_" + random, ext)
      ensures files == old(files) + {PathJoin(root, path)}
    {
      var fileName := if prefix != [] then prefix + "_" + timestamp + "." + ext else timestamp + "." + ext;
      path := PathJoin(folder, fileName);
      if PathJoin(root, path) in files {
        path := StoragePath(folder, prefix, timestamp + "_" + random, ext);
      }
      files := files + {PathJoin(root, path)};
    }

    /** `save_image`: a PNG under `folder` (`images` by default). */
    method SaveImage(folder: string, prefix: string, timestamp: string, random: string) returns (path: string)
      requires PathJoin(root, StoragePath(folder, prefix, timestamp, "png")) in files ==>
               PathJoin(root, StoragePath(folder, prefix, timestamp + "_" + random, "png")) !in files
      modifies this
      ensures PathJoin(root, path) !in old(files)
      ensures PathJoin(root, StoragePath(folder, prefix, timestamp, "png")) !in old(files) ==>
        path == StoragePath(folder, prefix, timestamp, "png")
      ensures PathJoin(root, StoragePath(folder, prefix, timestamp, "png")) in old(files) ==>
        path == StoragePath(folder, prefix, timestamp + "_" + random, "png")
      ensures files == old(files) + {PathJoin(root, path)}
    {
      path := Save(folder, prefix, timestamp, "png", random);
    }

    /** `save_latex_file`: a `.tex` file under `folder` (`latex` by default). */
    method SaveLatexFile(folder: string, prefix: string, timestamp: string, random: string) returns (path: string)
      requires PathJoin(root, StoragePath(folder, prefix, timestamp, "tex")) in files ==>
               PathJoin(root, StoragePath(folder, prefix, timestamp + "_" + random, "tex")) !in files
      modifies this
      ensures PathJoin(root, path) !in old(files)
      ensures PathJoin(root, StoragePath(folder, prefix, timestamp, "tex")) !in old(files) ==>
        path == StoragePath(folder, prefix, timestamp, "tex")
      ensures PathJoin(root, StoragePath(folder, prefix, timestamp, "tex")) in old(files) ==>
        path == StoragePath(folder, prefix, timestamp + "_" + random, "tex")
      ensures files == old(files) + {PathJoin(root, path)}
    {
      path := Save(folder, prefix, timestamp, "tex", random);
    }

    /** `save_pdf`: a PDF under `folder` (`pdfs` by default). */
    method SavePdf(folder: string, prefix: string, timestamp: string, random: string) returns (path: string)
      requires PathJoin(root, StoragePath(folder, prefix, timestamp, "pdf")) in files ==>
               PathJoin(root, StoragePath(folder, prefix, timestamp + "_" + random, "pdf")) !in files
      modifies this
      ensures PathJoin(root, path) !in old(files)
      ensures PathJoin(root, StoragePath(folder, prefix, timestamp, "pdf")) !in old(files) ==>
        path == StoragePath(folder, prefix, timestamp, "pdf")
      ensures PathJoin(root, StoragePath(folder, prefix, timestamp, "pdf")) in old(files) ==>
        path == StoragePath(folder, prefix, timestamp + "_" + random, "pdf")
      ensures files == old(files) + {PathJoin(root, path)}
    {
      path := Save(folder, prefix, timestamp, "pdf", random);
    }

    /** `delete_file(file_path)`: an empty path succeeds without touching the
        disk; otherwise the file is removed if it is there.  `removeFails` says
        whether `os.remove` raises `OSError`, which is reported as failure with
        the disk unchanged. */
    method DeleteFile(path: string, removeFails: bool) returns (ok: bool)
      modifies this
      ensures ok <==> path == [] || PathJoin(root, path) !in old(files) || !removeFails
      ensures path == [] ==> files == old(files)
      ensures ok && path != [] ==> files == old(files) - {PathJoin(root, path)}
      ensures !ok ==> files == old(files)
      ensures ok ==> !FileExists(path)
    {
      if path == [] {
        return true;
      }
      var fullPath := PathJoin(root, path);
      if fullPath in files {
        if removeFails {
          return false;
        }
        files := files - {fullPath};
      }
      return true;
    }
  }
}
