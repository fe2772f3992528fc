/**
 * How the dispatch loop names what it schedules: the extension of a link
 * (the suffix of the final path component, as a POSIX path), the target file
 * name built from a document id, and the storage URL of a link.
 */
module Naming {
  import opened Wrappers

  /** Position of the last `c` in `s`, or -1 when `s` has none. */
  function LastIndexOf(s: string, c: char): (i: int)
    ensures -1 <= i < |s|
    ensures 0 <= i ==> s[i] == c
    ensures forall j :: i < j < |s| ==> s[j] != c
  {
    if s == [] then -1
    else if s[|s| - 1] == c then |s| - 1
    else LastIndexOf(s[..|s| - 1], c)
  }

  /**
   * The final component of a path: empty and "." components are dropped
   * (so trailing and doubled slashes do not matter), and the empty path or
   * a path of only such components has the empty name.
   */
  function Name(p: string): (n: string)
    ensures '/' !in n && n != "."
    ensures |n| <= |p|
    decreases |p|
  {
    var i := LastIndexOf(p, '/');
    var tail := p[i + 1..];
    if tail != "" && tail != "." then tail
    else if i < 0 then ""
    else Name(p[..i])
  }

  /** The last occurrence of `c` is at `i` when nothing after `i` is a `c`. */
  lemma {:induction false} LastIndexOfAt(s: string, c: char, i: int)
    requires -1 <= i < |s|
    requires 0 <= i ==> s[i] == c
    requires forall j :: i < j < |s| ==> s[j] != c
    ensures LastIndexOf(s, c) == i
    decreases |s|
  {
    if i < |s| - 1 {
      var t := s[..|s| - 1];
      assert forall j :: i < j < |t| ==> t[j] == s[j];
      LastIndexOfAt(t, c, i);
    }
  }

  /** The same, with "no later `c`" stated on the slice after `i`. */
  lemma LastIndexOfIs(s: string, c: char, i: int)
    requires -1 <= i < |s|
    requires 0 <= i ==> s[i] == c
    requires c !in s[i + 1..]
    ensures LastIndexOf(s, c) == i
  {
    forall j | i < j < |s|
      ensures s[j] != c
    {
      assert s[j] == s[i + 1..][j - i - 1];
    }
    LastIndexOfAt(s, c, i);
  }

  /** A name made of one plain component is its own name, wherever it sits. */
  lemma NameOfFile(dir: string, f: string)
    requires f != "" && f != "." && '/' !in f
    ensures Name(dir + "/" + f) == f
  {
    var p := dir + "/" + f;
    assert p[|dir| + 1..] == f;
    assert forall j :: |dir| < j < |p| ==> p[j] == f[j - |dir| - 1];
    LastIndexOfAt(p, '/', |dir|);
  }

  /** A plain name, with no '/' and other than "" and ".", is its own final component. */
  lemma NameOfPlain(f: string)
    requires f != "" && f != "." && '/' !in f
    ensures Name(f) == f
  {
    LastIndexOfAt(f, '/', -1);
    assert f[0..] == f;
  }

  /** A trailing slash does not change the final component. */
  lemma NameTrailingSlash(p: string)
    ensures Name(p + "/") == Name(p)
  {
    var q := p + "/";
    LastIndexOfAt(q, '/', |p|);
    assert q[..|p|] == p;
  }

  /** A trailing "/." does not change the final component. */
  lemma NameTrailingDot(p: string)
    ensures Name(p + "/.") == Name(p)
  {
    var q := p + "/.";
    assert q[|p| + 1..] == ".";
    LastIndexOfAt(q, '/', |p|);
    assert q[..|p|] == p;
  }

  /**
   * `n` occurs in `p` at `i` as a whole component: it starts the path or
   * follows a '/', and it ends the path or is followed by a '/'.
   */
  ghost predicate ComponentAt(p: string, n: string, i: int)
  {
    && 0 <= i <= |p| - |n|
    && p[i..i + |n|] == n
    && (i == 0 || p[i - 1] == '/')
    && (i + |n| == |p| || p[i + |n|] == '/')
  }

  /** `n` is a whole component at `i`, and what follows it has no name of its own (only '/' and "." components). */
  ghost predicate LastComponentAt(p: string, n: string, i: int)
  {
    ComponentAt(p, n, i) && Name(p[i + |n|..]) == ""
  }

  /** A component stays in place when text starting with '/' is appended. */
  lemma ComponentExtend(q: string, t: string, n: string, i: int)
    requires ComponentAt(q, n, i)
    requires |t| > 0 && t[0] == '/'
    ensures ComponentAt(q + t, n, i)
    ensures (q + t)[i + |n|..] == q[i + |n|..] + t
  {
    var p := q + t;
    assert p[i..i + |n|] == q[i..i + |n|];
    assert p[i + |n|] == (if i + |n| < |q| then q[i + |n|] else '/');
  }

  /** Appending "/" or "/." keeps a last component in place. */
  lemma LastComponentExtend(q: string, t: string, n: string, i: int)
    requires LastComponentAt(q, n, i)
    requires t == "/" || t == "/."
    ensures LastComponentAt(q + t, n, i)
  {
    ComponentExtend(q, t, n, i);
    if t == "/" {
      NameTrailingSlash(q[i + |n|..]);
    } else {
      NameTrailingDot(q[i + |n|..]);
    }
  }

  /** A final segment other than "" and "." is a last component. */
  lemma TailComponent(p: string, k: int)
    requires k == LastIndexOf(p, '/')
    requires p[k + 1..] != "" && p[k + 1..] != "."
    ensures LastComponentAt(p, p[k + 1..], k + 1)
  {
    var n := p[k + 1..];
    assert p[k + 1..k + 1 + |n|] == n;
    assert p[k + 1 + |n|..] == "";
  }

  /** A path splits at a '/' into what precedes it and the rest. */
  lemma SplitAtSlash(p: string, k: int)
    requires 0 <= k < |p| && p[k] == '/'
    ensures p == p[..k] + ("/" + p[k + 1..])
  {
    assert p[k..] == "/" + p[k + 1..];
    assert p == p[..k] + p[k..];
  }

  /** A non-empty final component is the last component of the path that is neither empty nor ".". */
  lemma {:induction false} NameIsLastComponent(p: string)
    requires Name(p) != ""
    ensures exists i :: LastComponentAt(p, Name(p), i)
    decreases |p|
  {
    var k := LastIndexOf(p, '/');
    var tail := p[k + 1..];
    if tail != "" && tail != "." {
      TailComponent(p, k);
    } else {
      var q := p[..k];
      NameIsLastComponent(q);
      var i :| LastComponentAt(q, Name(q), i);
      SplitAtSlash(p, k);
      LastComponentExtend(q, "/" + tail, Name(q), i);
    }
  }

  /**
   * The extension of a link: from the last '.' of its name to the end,
   * or empty when that name has no '.', or its last '.' is its first or
   * its last character.
   */
  function Suffix(link: string): (x: string)
    ensures var n := Name(link);
      x != "" ==> 2 <= |x| < |n| && x[0] == '.' && '.' !in x[1..] && n[|n| - |x|..] == x
    ensures var n := Name(link);
      x == "" ==> forall k :: 0 < k < |n| - 1 && n[k] == '.' ==> '.' in n[k + 1..]
  {
    var n := Name(link);
    var i := LastIndexOf(n, '.');
    if 0 < i < |n| - 1 then n[i..]
    else
      NoInnerLastDot(n, i);
      ""
  }

  /** When the last '.' is absent, first or last, every inner '.' has a later one. */
  lemma NoInnerLastDot(n: string, i: int)
    requires i == LastIndexOf(n, '.')
    requires !(0 < i < |n| - 1)
    ensures forall k :: 0 < k < |n| - 1 && n[k] == '.' ==> '.' in n[k + 1..]
  {
    forall k | 0 < k < |n| - 1 && n[k] == '.'
      ensures '.' in n[k + 1..]
    {
      assert n[k + 1..][|n| - k - 2] == n[|n| - 1];
    }
  }

  /** The two kinds of document, each with its own id key and naming rule. */
  datatype Variant = Data | Party

  /** How an `attachNum` prints in an f-string: a missing one prints as "None". */
  function Render(attachNum: Option<string>): string
  {
    match attachNum
    case None => "None"
    case Some(s) => s
  }

  /**
   * The target file name: the document id, then for the party variant a
   * dash and the attachment number, then the extension of the link.
   */
  function FileName(v: Variant, docId: string, attachNum: Option<string>, link: string): (r: string)
    ensures var x := Suffix(link);
      && |r| >= |docId| + |x|
      && r[..|docId|] == docId
      && r[|r| - |x|..] == x
      && (v == Data ==> |r| == |docId| + |x|)
      && (v == Party ==> r[|docId|..|r| - |x|] == "-" + Render(attachNum))
  {
    var x := Suffix(link);
    if v == Data then docId + x
    else
      var r := docId + "-" + Render(attachNum) + x;
      assert r[|docId|..|r| - |x|] == "-" + Render(attachNum);
      r
  }

  const StoragePath := "storage/file/"

  /** The URL a link is downloaded from. */
  function DownloadUrl(baseLink: string, link: string): (u: string)
    ensures |u| == |baseLink| + |StoragePath| + |link|
    ensures u[..|baseLink|] == baseLink
    ensures u[|baseLink|..|baseLink| + |StoragePath|] == StoragePath
  {
    baseLink + StoragePath + link
  }

  /** The link can be read back from its URL: the URL loses nothing. */
  lemma LinkFromUrl(baseLink: string, link: string)
    ensures DownloadUrl(baseLink, link)[|baseLink| + |StoragePath|..] == link
  {
  }

  /** Two links under one base share a URL only when they are the same link. */
  lemma DownloadUrlInjective(baseLink: string, l1: string, l2: string)
    requires DownloadUrl(baseLink, l1) == DownloadUrl(baseLink, l2)
    ensures l1 == l2
  {
    LinkFromUrl(baseLink, l1);
    LinkFromUrl(baseLink, l2);
  }

  /** A link with no directory part and an extension in the middle of its name. */
  lemma SuffixOfPlainName()
    ensures Name("a.pdf") == "a.pdf" && Suffix("a.pdf") == ".pdf"
  {
    assert "a.pdf"[0..] == "a.pdf";
    assert "a.pdf"[1..] == ".pdf";
    LastIndexOfIs("a.pdf", '/', -1);
    LastIndexOfIs("a.pdf", '.', 1);
  }

  /** A link under a directory: only its last component gives the extension. */
  lemma SuffixOfNestedName()
    ensures Name("files/scan.jpg") == "scan.jpg" && Suffix("files/scan.jpg") == ".jpg"
  {
    assert "files/scan.jpg" == "files" + "/" + "scan.jpg";
    assert "scan.jpg"[4..] == ".jpg";
    NameOfFile("files", "scan.jpg");
    LastIndexOfIs("scan.jpg", '.', 4);
  }

  lemma DataFileName(docId: string, link: string)
    ensures FileName(Data, docId, None, link) == docId + Suffix(link)
  {
  }

  lemma PartyFileName(docId: string, attachNum: Option<string>, link: string)
    ensures FileName(Party, docId, attachNum, link) == docId + "-" + Render(attachNum) + Suffix(link)
  {
  }

  /** A data document with id "D1" whose attachment links to "a.pdf". */
  lemma DataFileNameExample()
    ensures FileName(Data, "D1", None, "a.pdf") == "D1.pdf"
  {
    assert "D1" + ".pdf" == "D1.pdf";
    DataFileName("D1", "a.pdf");
    SuffixOfPlainName();
  }

  /** A party attachment, with its number and with the number missing. */
  lemma PartyFileNameExample()
    ensures FileName(Party, "P7", Some("2"), "files/scan.jpg") == "P7-2.jpg"
    ensures FileName(Party, "P7", None, "files/scan.jpg") == "P7-None.jpg"
  {
    assert "P7" + "-" + "2" + ".jpg" == "P7-2.jpg";
    assert "P7" + "-" + "None" + ".jpg" == "P7-None.jpg";
    PartyFileName("P7", Some("2"), "files/scan.jpg");
    PartyFileName("P7", None, "files/scan.jpg");
    SuffixOfNestedName();
  }

  /** A leading dot, a trailing dot and a dot only in a directory give no extension. */
  lemma NoSuffixExamples()
    ensures Suffix(".hidden") == ""
    ensures Suffix("archive.") == ""
    ensures Suffix("dir.v2/README") == ""
  {
    assert ".hidden"[0..] == ".hidden";
    assert "archive."[0..] == "archive.";
    assert "dir.v2/README" == "dir.v2" + "/" + "README";
    LastIndexOfIs(".hidden", '/', -1);
    LastIndexOfIs(".hidden", '.', 0);
    LastIndexOfIs("archive.", '/', -1);
    LastIndexOfIs("archive.", '.', 7);
    NameOfFile("dir.v2", "README");
    LastIndexOfIs("README", '.', -1);
  }
}
