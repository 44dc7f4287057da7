/** The public study-material page (src/pages/StudyMaterials.tsx): only active materials are
    listed, and a download is named after the material's title with an extension chosen from
    the content type the file host answered with. */
module StudyMaterials {
  import opened Common
  import opened Text
  import Seqs
  import MaterialManagement

  /** `material.status === "Active"`. */
  predicate IsActive(m: MaterialManagement.Material) {
    m.status == "Active"
  }

  function ActiveOnly(materials: seq<MaterialManagement.Material>): (r: seq<MaterialManagement.Material>)
    ensures |r| <= |materials|
    ensures forall k :: 0 <= k < |r| ==> r[k].status == "Active"
  {
    Seqs.Filter(materials, IsActive)
  }

  /** Exactly the active materials are listed, in their original order; the status must be
      exactly "Active", so "active" or "Inactive" never shows. */
  lemma ActiveOnlySpec(materials: seq<MaterialManagement.Material>)
    ensures forall m :: m in ActiveOnly(materials) <==> m in materials && m.status == "Active"
    ensures Seqs.IsSubsequence(ActiveOnly(materials), materials)
    ensures (forall k :: 0 <= k < |materials| ==> IsActive(materials[k])) ==> ActiveOnly(materials) == materials
  {
    forall m ensures m in ActiveOnly(materials) <==> m in materials && m.status == "Active" {
      Seqs.FilterMembership(materials, IsActive, m);
    }
    Seqs.FilterIsSubsequence(materials, IsActive);
    if forall k :: 0 <= k < |materials| ==> IsActive(materials[k]) {
      Seqs.FilterKeepsAll(materials, IsActive);
    }
  }

  const DefaultMimeType := "application/octet-stream"

  /** `response.headers["content-type"] || "application/octet-stream"`; an absent header is
      the empty string. */
  function MimeType(contentType: string): (r: string)
    ensures r != ""
    ensures contentType != "" ==> r == contentType
    ensures contentType == "" ==> r == DefaultMimeType
  {
    OrElse(contentType, DefaultMimeType)
  }

  /** `mimeType.split("/")[1] || "file"`: the text between the first and second "/", or
      "file" when there is none or it is empty. */
  function SubtypeOrFile(mime: string): (r: string)
    ensures r != "" && '/' !in r
    ensures '/' !in mime ==> r == "file"
  {
    var pieces := Split(mime, '/');
    assert '/' !in mime ==> pieces == [mime] by {
      if '/' !in mime {
        SplitWithoutSeparator(mime, '/');
      }
    }
    if |pieces| >= 2 && pieces[1] != "" then pieces[1] else "file"
  }

  /** The first keyword test that passes decides the extension. */
  function Extension(mime: string): (r: string)
    ensures r != ""
    ensures Includes(mime, "pdf") ==> r == "pdf"
    ensures !Includes(mime, "pdf") && Includes(mime, "jpeg") ==> r == "jpg"
    ensures !Includes(mime, "pdf") && !Includes(mime, "jpeg") && Includes(mime, "png") ==> r == "png"
    ensures (!Includes(mime, "pdf") && !Includes(mime, "jpeg") && !Includes(mime, "png")
             && Includes(mime, "msword")) ==> r == "doc"
    ensures (!Includes(mime, "pdf") && !Includes(mime, "jpeg") && !Includes(mime, "png") && !Includes(mime, "msword")
             && (Includes(mime, "spreadsheet") || Includes(mime, "excel"))) ==> r == "xls"
    ensures (!Includes(mime, "pdf") && !Includes(mime, "jpeg") && !Includes(mime, "png") && !Includes(mime, "msword")
             && !Includes(mime, "spreadsheet") && !Includes(mime, "excel")) ==> r == SubtypeOrFile(mime)
  {
    if Includes(mime, "pdf") then "pdf"
    else if Includes(mime, "jpeg") then "jpg"
    else if Includes(mime, "png") then "png"
    else if Includes(mime, "msword") then "doc"
    else if Includes(mime, "spreadsheet") || Includes(mime, "excel") then "xls"
    else SubtypeOrFile(mime)
  }

  /** A type of the form "major/minor" whose minor part is non-empty and which matches no
      keyword gets its minor part as extension. */
  lemma ExtensionFromSubtype(major: string, minor: string)
    requires '/' !in major && '/' !in minor && minor != ""
    requires var mime := major + "/" + minor;
      !Includes(mime, "pdf") && !Includes(mime, "jpeg") && !Includes(mime, "png")
      && !Includes(mime, "msword") && !Includes(mime, "spreadsheet") && !Includes(mime, "excel")
    ensures Extension(major + "/" + minor) == minor
  {
    SplitAtSeparator(major, minor, '/');
    SplitWithoutSeparator(minor, '/');
  }

  /** A type with nothing after its first "/", or an empty part between the first and the
      second "/", falls back to "file". */
  lemma SubtypeFallsBackToFile(major: string, rest: string)
    requires '/' !in major
    ensures SubtypeOrFile(major + "/") == "file"
    ensures SubtypeOrFile(major + "//" + rest) == "file"
  {
    SplitAtSeparator(major, "", '/');
    assert major + "/" == major + ['/'] + "";
    SplitAtSeparator(major, "/" + rest, '/');
    assert major + "//" + rest == major + ['/'] + ("/" + rest);
    SplitAtSeparator("", rest, '/');
    assert "/" + rest == "" + ['/'] + rest;
  }

  /** `${material?.title}.${extension}`. */
  function DownloadName(title: string, contentType: string): (r: string)
    ensures |r| > |title| + 1 && r[..|title|] == title && r[|title|] == '.'
  {
    title + "." + Extension(MimeType(contentType))
  }

  /** The saved file's extension, read back as the text after its last dot, is the chosen
      extension whenever that has no dot of its own. */
  lemma DownloadNameEndsWithExtension(title: string, contentType: string)
    requires '.' !in Extension(MimeType(contentType))
    ensures LastPiece(DownloadName(title, contentType), '.') == Extension(MimeType(contentType))
  {
    LastPieceAfterSeparator(title, Extension(MimeType(contentType)), '.');
  }
}
