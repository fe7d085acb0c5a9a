/** The document loading service of src/loaders/document_loader.py.
    Format loaders and the text splitter are opaque functions; the
    processed-documents ledger is the text of its file. */
module DocumentLoader {
  import opened Common

  // ---------------------------------------------------------------------------
  // pathlib, for normalised paths (no trailing '/', no "//", no ".")

  /** `Path(p).name`: the longest suffix of p that holds no '/'. */
  function BaseName(p: string): (r: string)
    ensures |r| <= |p| && p[|p| - |r|..] == r
    ensures forall i :: 0 <= i < |r| ==> r[i] != '/'
    ensures |r| < |p| ==> p[|p| - |r| - 1] == '/'
  {
    if p == [] || p[|p| - 1] == '/' then [] else BaseName(p[..|p| - 1]) + [p[|p| - 1]]
  }

  /** Python's `s.rfind(c)`: the last index holding c, or -1. */
  function RFind(s: string, c: char): (i: int)
    ensures -1 <= i < |s|
    ensures i >= 0 ==> s[i] == c
    ensures forall j :: i < j < |s| ==> s[j] != c
  {
    if s == [] then -1 else if s[|s| - 1] == c then |s| - 1 else RFind(s[..|s| - 1], c)
  }

  /** `Path(p).suffix`: the name from its last '.' on, or "" when the name
      has no '.', starts with its only '.' or ends with a '.'. */
  function Suffix(p: string): string {
    NameSuffix(BaseName(p))
  }

  /** The suffix of a file name. */
  function NameSuffix(name: string): string {
    var i := RFind(name, '.');
    if 0 < i < |name| - 1 then name[i..] else ""
  }

  /** A suffix is the file name's tail from its last '.', which is neither
      its first nor its last character; there is none exactly when the name
      has no '.' after its first character or ends with a '.'. */
  lemma NameSuffixSpec(name: string)
    ensures var r := NameSuffix(name);
            r != "" ==> 2 <= |r| < |name| && name[|name| - |r|..] == r && r[0] == '.' &&
                        forall i :: 1 <= i < |r| ==> r[i] != '.'
    ensures var r := NameSuffix(name);
            r == "" <==> name == "" || name[|name| - 1] == '.' || forall i :: 0 < i < |name| ==> name[i] != '.'
  {
    var i := RFind(name, '.');
    if 0 < i < |name| - 1 {
      var r := name[i..];
      assert NameSuffix(name) == r && r[0] == '.';
      assert forall j :: 1 <= j < |r| ==> r[j] == name[i + j];
      assert name[|name| - 1] != '.';
    } else {
      assert NameSuffix(name) == "";
      if i != |name| - 1 {
        assert forall j :: 0 < j < |name| ==> name[j] != '.';
      }
    }
  }

  function LowerChar(c: char): char {
    if 'A' <= c <= 'Z' then (c as int + 32) as char else c
  }

  /** `s.lower()` on ASCII letters. */
  function Lower(s: string): (r: string)
    ensures |r| == |s|
  {
    seq(|s|, i requires 0 <= i < |s| => LowerChar(s[i]))
  }

  /** No ASCII capital is left, every other character is kept, and lowering twice changes nothing more. */
  lemma LowerSpec(s: string)
    ensures forall i :: 0 <= i < |s| ==> !('A' <= Lower(s)[i] <= 'Z')
    ensures forall i :: 0 <= i < |s| && !('A' <= s[i] <= 'Z') ==> Lower(s)[i] == s[i]
    ensures Lower(Lower(s)) == Lower(s)
  {
  }

  /** `Config.DOCUMENTS_DIR / name`. */
  function JoinPath(dir: string, name: string): string {
    if StartsWith(name, "/") then name else dir + "/" + name
  }

  /** The saved upload keeps its declared name as its file name. */
  lemma JoinPathName(dir: string, name: string)
    requires name != [] && forall i :: 0 <= i < |name| ==> name[i] != '/'
    ensures BaseName(JoinPath(dir, name)) == name
  {
    assert name[..1][0] == name[0];
    var p := JoinPath(dir, name);
    assert p == dir + "/" + name;
    var r := BaseName(p);
    assert p[|dir|] == '/';
    assert forall j :: |dir| < j < |p| ==> p[j] == name[j - |dir| - 1];
    assert forall j :: |p| - |r| <= j < |p| ==> p[j] == r[j - (|p| - |r|)];
    assert p[|p| - |name|..] == name;
  }

  // ---------------------------------------------------------------------------
  // The format dispatch table

  /** The LangChain loader class chosen for a suffix; TextLoader is opened as utf-8. */
  datatype LoaderKind = PyPDFLoader | Docx2txtLoader | TextLoader

  /** SUPPORTED_LOADERS. */
  const SupportedLoaders: map<string, LoaderKind> :=
    map[".pdf" := PyPDFLoader, ".docx" := Docx2txtLoader, ".doc" := Docx2txtLoader,
        ".txt" := TextLoader, ".html" := TextLoader, ".htm" := TextLoader, ".md" := TextLoader]

  /** `loader_class(path).load()`: the documents read from a file, or None when the loader raises. */
  type Reader = (string, LoaderKind) -> Option<seq<Document>>

  /** `text_splitter.split_documents`. */
  type Splitter = seq<Document> -> seq<Document>

  /** `metadata.update(...)` with the three file fields. */
  function WithFileFields(m: Metadata, source: string, fileName: string, fileType: string): Metadata {
    m["source" := source]["file_name" := fileName]["file_type" := fileType]
  }

  /** The three file fields are set, overriding any loader-provided value, and every other key is kept. */
  lemma WithFileFieldsSpec(m: Metadata, source: string, fileName: string, fileType: string)
    ensures var r := WithFileFields(m, source, fileName, fileType);
            "source" in r && r["source"] == source &&
            "file_name" in r && r["file_name"] == fileName &&
            "file_type" in r && r["file_type"] == fileType &&
            r.Keys == m.Keys + {"source", "file_name", "file_type"} &&
            forall k :: k in m && k != "source" && k != "file_name" && k != "file_type" ==> r[k] == m[k]
  {
    assert "source" != "file_name" && "source" != "file_type" && "file_name" != "file_type";
  }

  /** The metadata update applied to each document loaded from path. */
  function Stamp(doc: Document, path: string): Document {
    Document(doc.pageContent, WithFileFields(doc.metadata, path, BaseName(path), Lower(Suffix(path))))
  }

  function StampAll(docs: seq<Document>, path: string): seq<Document> {
    seq(|docs|, i requires 0 <= i < |docs| => Stamp(docs[i], path))
  }

  /** What `load_document(path)` returns or raises. */
  function LoadResult(path: string, read: Reader, split: Splitter): Result<seq<Document>> {
    var suffix := Lower(Suffix(path));
    if suffix !in SupportedLoaders then Err(UnsupportedFileType(suffix))
    else match read(path, SupportedLoaders[suffix])
      case None => Err(LoadFailed)
      case Some(docs) => Ok(split(StampAll(docs, path)))
  }

  /** `load_document` raises the unsupported-type error exactly for a lower-cased
      suffix outside the seven supported ones. */
  lemma UnsupportedSuffix(path: string, read: Reader, split: Splitter)
    ensures LoadResult(path, read, split) == Err(UnsupportedFileType(Lower(Suffix(path)))) <==>
            Lower(Suffix(path)) !in {".pdf", ".docx", ".doc", ".txt", ".html", ".htm", ".md"}
  {
    var suffix := Lower(Suffix(path));
    assert suffix in SupportedLoaders <==> suffix in {".pdf", ".docx", ".doc", ".txt", ".html", ".htm", ".md"} by {
      assert SupportedLoaders.Keys == {".pdf", ".docx", ".doc", ".txt", ".html", ".htm", ".md"};
    }
    if suffix in SupportedLoaders {
      assert LoadResult(path, read, split).Ok? || LoadResult(path, read, split) == Err(LoadFailed);
    }
  }

  // ---------------------------------------------------------------------------
  // The processed-documents ledger

  /** The ledger file: missing, or present with its text. */
  datatype Ledger = Absent | Present(text: string)

  /** The characters at which Python's `str.splitlines` breaks. */
  predicate IsLineBreak(c: char) {
    c == '\n' || c == '\r' || c == '\U{0B}' || c == '\U{0C}' || c == '\U{1C}' || c == '\U{1D}'
    || c == '\U{1E}' || c == '\U{85}' || c == '\U{2028}' || c == '\U{2029}'
  }

  predicate HasNoLineBreak(s: string) {
    forall i :: 0 <= i < |s| ==> !IsLineBreak(s[i])
  }

  function FirstBreak(s: string): (i: nat)
    ensures i <= |s|
    ensures i < |s| ==> IsLineBreak(s[i])
    ensures HasNoLineBreak(s[..i])
  {
    if s == [] then 0
    else if IsLineBreak(s[0]) then 0
    else
      var j := FirstBreak(s[1..]);
      assert s[..j + 1] == [s[0]] + s[1..][..j];
      j + 1
  }

  /** Where the line after a break at i starts: "\r\n" counts as one break. */
  function NextStart(s: string, i: nat): (n: nat)
    requires i < |s|
    ensures i < n <= |s|
  {
    if s[i] == '\r' && i + 1 < |s| && s[i + 1] == '\n' then i + 2 else i + 1
  }

  /** Python's `s.splitlines()`: a final break opens no empty line. */
  function SplitLines(s: string): (lines: seq<string>)
    ensures forall k :: 0 <= k < |lines| ==> HasNoLineBreak(lines[k])
    decreases |s|
  {
    if s == [] then []
    else
      var i := FirstBreak(s);
      if i == |s| then [s] else [s[..i]] + SplitLines(s[NextStart(s, i)..])
  }

  /** `_is_document_processed`: the ledger file exists and one of its lines is the id. */
  predicate InLedger(l: Ledger, docId: string) {
    l.Present? && docId in SplitLines(l.text)
  }

  /** The ledger after `_record_processed_document(docId)` appends the id and a newline. */
  function Recorded(l: Ledger, docId: string): Ledger {
    Present((if l.Present? then l.text else "") + docId + "\n")
  }

  /** A ledger written only by Recorded is empty or ends with a newline. */
  predicate WellTerminated(l: Ledger) {
    l.Absent? || l.text == "" || l.text[|l.text| - 1] == '\n'
  }

  lemma NextStartPrefix(c: string, d: string, i: nat)
    requires i < |c| && c[|c| - 1] == '\n'
    ensures NextStart(c + d, i) == NextStart(c, i)
  {
  }

  /** One line of `splitlines`, when s has a break. */
  lemma SplitLinesUnfold(s: string, i: nat)
    requires i == FirstBreak(s) && i < |s|
    ensures SplitLines(s) == [s[..i]] + SplitLines(s[NextStart(s, i)..])
  {
  }

  /** A text ending in a newline has a break, and so does its extension. */
  lemma EndsWithBreak(c: string, d: string)
    requires c != "" && c[|c| - 1] == '\n'
    ensures FirstBreak(c) < |c|
    ensures FirstBreak(c + d) == FirstBreak(c)
    ensures NextStart(c + d, FirstBreak(c)) == NextStart(c, FirstBreak(c))
  {
    assert IsLineBreak(c[|c| - 1]);
    assert c[..|c|] == c;
    FirstBreakPrefix(c, d);
    NextStartPrefix(c, d, FirstBreak(c));
  }

  /** The first line of c + d is the first line of c, and the rest continues into d. */
  lemma SplitLinesHead(c: string, d: string)
    requires c != "" && c[|c| - 1] == '\n'
    ensures FirstBreak(c) < |c|
    ensures var i := FirstBreak(c);
            SplitLines(c + d) == [c[..i]] + SplitLines(c[NextStart(c, i)..] + d)
  {
    EndsWithBreak(c, d);
    var i := FirstBreak(c);
    var next := NextStart(c, i);
    var s := c + d;
    assert s[..i] == c[..i];
    assert s[next..] == c[next..] + d;
    SplitLinesUnfold(s, i);
  }

  lemma AppendAssoc<T>(a: seq<T>, b: seq<T>, e: seq<T>)
    ensures a + (b + e) == (a + b) + e
  {
  }

  lemma {:induction false} SplitLinesAppend(c: string, d: string)
    requires c == "" || c[|c| - 1] == '\n'
    ensures SplitLines(c + d) == SplitLines(c) + SplitLines(d)
    decreases |c|
  {
    if c == "" {
      assert c + d == d;
    } else {
      SplitLinesHead(c, d);
      var i := FirstBreak(c);
      SplitLinesUnfold(c, i);
      var tail := c[NextStart(c, i)..];
      assert tail == "" || tail[|tail| - 1] == c[|c| - 1];
      SplitLinesAppend(tail, d);
      AppendAssoc([c[..i]], SplitLines(tail), SplitLines(d));
    }
  }

  lemma {:induction false} FirstBreakPrefix(c: string, d: string)
    requires FirstBreak(c) < |c|
    ensures FirstBreak(c + d) == FirstBreak(c)
  {
    if !IsLineBreak(c[0]) {
      assert (c + d)[1..] == c[1..] + d;
      FirstBreakPrefix(c[1..], d);
    }
  }

  lemma {:induction false} FirstBreakOfLine(d: string)
    requires HasNoLineBreak(d)
    ensures FirstBreak(d + "\n") == |d|
  {
    if d != [] {
      assert (d + "\n")[1..] == d[1..] + "\n";
      FirstBreakOfLine(d[1..]);
    }
  }

  /** Appending an id without line breaks and a newline adds exactly that line. */
  lemma RecordedLines(l: Ledger, docId: string)
    requires WellTerminated(l) && HasNoLineBreak(docId)
    ensures WellTerminated(Recorded(l, docId))
    ensures SplitLines(Recorded(l, docId).text) == (if l.Present? then SplitLines(l.text) else []) + [docId]
  {
    var c := if l.Present? then l.text else "";
    SplitLinesAppend(c, docId + "\n");
    FirstBreakOfLine(docId);
    var s := docId + "\n";
    assert s[..|docId|] == docId;
    assert s[|docId| + 1..] == [];
    assert c + docId + "\n" == c + s;
  }

  /** After `_record_processed_document(d)`, `_is_document_processed(d)` holds. */
  lemma RecordedIsProcessed(l: Ledger, docId: string)
    requires WellTerminated(l) && HasNoLineBreak(docId)
    ensures InLedger(Recorded(l, docId), docId)
  {
    RecordedLines(l, docId);
  }

  /** An id that holds a line break is never found in the ledger, however often it is recorded. */
  lemma BrokenIdNeverProcessed(l: Ledger, docId: string)
    requires !HasNoLineBreak(docId)
    ensures !InLedger(l, docId)
  {
  }

  // ---------------------------------------------------------------------------
  // Batching

  /** `[s[i:i+size] for i in range(0, len(s), size)]`. */
  function Slices<T>(s: seq<T>, size: nat): seq<seq<T>>
    requires size > 0
    decreases |s|
  {
    if s == [] then [] else if |s| <= size then [s] else [s[..size]] + Slices(s[size..], size)
  }

  /** The slices of s[i..] start with s[i..i+size], cut short at the end of s. */
  lemma SlicesFrom<T>(s: seq<T>, i: nat, size: nat)
    requires size > 0 && i < |s|
    ensures Slices(s[i..], size) == [s[i..Min(i + size, |s|)]] + Slices(s[Min(i + size, |s|)..], size)
  {
    var t := s[i..];
    if |t| <= size {
      assert s[Min(i + size, |s|)..] == [];
      assert t == s[i..Min(i + size, |s|)];
    } else {
      assert t[..size] == s[i..i + size] && t[size..] == s[i + size..];
    }
  }

  /** The slices put back together give the input. */
  lemma {:induction false} SlicesConcat<T>(s: seq<T>, size: nat)
    requires size > 0
    ensures Concat(Slices(s, size)) == s
    decreases |s|
  {
    if |s| > size {
      SlicesConcat(s[size..], size);
      assert s == s[..size] + s[size..];
    }
  }

  lemma {:induction false} MulAtLeast(d: int, size: nat)
    requires d >= 1
    ensures d * size >= size
  {
    if d > 1 {
      MulAtLeast(d - 1, size);
      assert d * size == (d - 1) * size + size;
    }
  }

  lemma DivSmall(a: nat, size: nat)
    requires 0 <= a < size
    ensures a / size == 0
  {
    var q, r := a / size, a % size;
    assert a == q * size + r;
    if q >= 1 { MulAtLeast(q, size); }
  }

  lemma DivStep(a: nat, size: nat)
    requires size > 0
    ensures (a + size) / size == a / size + 1
  {
    var q, r := a / size, a % size;
    var q', r' := (a + size) / size, (a + size) % size;
    assert a == q * size + r;
    assert a + size == q' * size + r';
    var d := q' - (q + 1);
    assert d * size == q' * size - (q + 1) * size;
    assert (q + 1) * size == q * size + size;
    assert d * size == r - r';
    if d >= 1 { MulAtLeast(d, size); }
  }

  /** There are ceil(n/size) slices. */
  lemma {:induction false} SlicesCount<T>(s: seq<T>, size: nat)
    requires size > 0
    ensures |Slices(s, size)| == (|s| + size - 1) / size
    decreases |s|
  {
    if s == [] {
      DivSmall(size - 1, size);
    } else if |s| <= size {
      DivSmall(|s| - 1, size);
      DivStep(|s| - 1, size);
    } else {
      SlicesCount(s[size..], size);
      DivStep(|s| - size + size - 1, size);
    }
  }

  /** Every slice has length size except a shorter, non-empty last one. */
  lemma {:induction false} SlicesLengths<T>(s: seq<T>, size: nat)
    requires size > 0
    ensures forall j :: 0 <= j < |Slices(s, size)| - 1 ==> |Slices(s, size)[j]| == size
    ensures Slices(s, size) != [] ==> 0 < |Slices(s, size)[|Slices(s, size)| - 1]| <= size
    decreases |s|
  {
    if |s| > size {
      var r, rest := Slices(s, size), Slices(s[size..], size);
      SlicesLengths(s[size..], size);
      assert r == [s[..size]] + rest;
      forall j | 0 <= j < |r| - 1 ensures |r[j]| == size {
        if j > 0 { assert r[j] == rest[j - 1]; }
      }
      assert r[|r| - 1] == rest[|rest| - 1];
    }
  }

  /** Two inputs of one length are cut at the same places. */
  lemma {:induction false} SlicesAligned<T, U>(s: seq<T>, t: seq<U>, size: nat)
    requires size > 0 && |s| == |t|
    ensures |Slices(s, size)| == |Slices(t, size)|
    ensures forall j :: 0 <= j < |Slices(s, size)| ==> |Slices(s, size)[j]| == |Slices(t, size)[j]|
    decreases |s|
  {
    if |s| > size {
      SlicesAligned(s[size..], t[size..], size);
    }
  }

  /** The first j slices put back together give the first j*size elements. */
  lemma {:induction false} SlicesPrefix<T>(s: seq<T>, size: nat, j: nat)
    requires size > 0 && j <= |Slices(s, size)|
    ensures j * size <= |s| || j == |Slices(s, size)|
    ensures Concat(Slices(s, size)[..j]) == s[..Min(j * size, |s|)]
    decreases |s|
  {
    if j == 0 {
    } else if |s| <= size {
      assert Slices(s, size)[..j] == [s];
      assert Concat([s][1..]) == [];
    } else {
      var rest := Slices(s[size..], size);
      var pre := rest[..j - 1];
      assert Slices(s, size)[..j] == [s[..size]] + pre;
      assert Concat([s[..size]] + pre) == s[..size] + Concat(pre) by {
        assert ([s[..size]] + pre)[1..] == pre;
      }
      SlicesPrefix(s[size..], size, j - 1);
      var k := Min((j - 1) * size, |s| - size);
      assert j * size == (j - 1) * size + size;
      assert Min(j * size, |s|) == size + k;
      assert s[..size + k] == s[..size] + s[size..][..k];
    }
  }

  /** A directory entry met by `directory.rglob("*")`, in visiting order. */
  datatype Entry = Entry(path: string, isFile: bool)

  /** The filter of `_process_directory`. */
  predicate Eligible(e: Entry) {
    e.isFile && Lower(Suffix(e.path)) in SupportedLoaders
  }

  /** The chunks `_process_file` returns and the ledger it leaves. */
  function ProcessFileOutcome(l: Ledger, path: string, skip: bool, read: Reader, split: Splitter)
    : (seq<Document>, Ledger)
  {
    if skip && InLedger(l, path) then ([], l)
    else match LoadResult(path, read, split)
      case Err(_) => ([], l)
      case Ok(chunks) => (chunks, Recorded(l, path))
  }

  /** A skipped file and a load error give [] and leave the ledger as it was;
      a successful load returns its chunks and adds the path to the ledger as
      exactly one new line, even when there are no chunks. */
  lemma ProcessFileSpec(l: Ledger, path: string, skip: bool, read: Reader, split: Splitter)
    requires WellTerminated(l) && HasNoLineBreak(path)
    ensures var o := ProcessFileOutcome(l, path, skip, read, split);
            var loaded := !(skip && InLedger(l, path)) && LoadResult(path, read, split).Ok?;
            (loaded ==> o.0 == LoadResult(path, read, split).value && o.1.Present? && WellTerminated(o.1) &&
                        SplitLines(o.1.text) == (if l.Present? then SplitLines(l.text) else []) + [path]) &&
            (!loaded ==> o == ([], l))
  {
    if !(skip && InLedger(l, path)) && LoadResult(path, read, split).Ok? {
      RecordedLines(l, path);
    }
  }

  /** Of two consecutive `_process_file(p, True)` calls whose first load succeeds, the second returns []. */
  lemma ProcessFileIdempotent(l: Ledger, path: string, read: Reader, split: Splitter)
    requires WellTerminated(l) && HasNoLineBreak(path)
    requires LoadResult(path, read, split).Ok?
    ensures var after := ProcessFileOutcome(l, path, true, read, split).1;
            ProcessFileOutcome(after, path, true, read, split) == ([], after)
  {
    if !InLedger(l, path) {
      RecordedIsProcessed(l, path);
    }
  }

  /** What one entry met by the directory walk contributes. */
  function FileStep(l: Ledger, e: Entry, skip: bool, read: Reader, split: Splitter): (seq<Document>, Ledger) {
    if Eligible(e) then ProcessFileOutcome(l, e.path, skip, read, split) else ([], l)
  }

  /** The chunks `_process_directory` returns and the ledger it leaves, entry by entry in visiting order. */
  function DirectoryOutcome(l: Ledger, entries: seq<Entry>, skip: bool, read: Reader, split: Splitter)
    : (seq<Document>, Ledger)
    decreases |entries|
  {
    if entries == [] then ([], l)
    else
      var before := DirectoryOutcome(l, entries[..|entries| - 1], skip, read, split);
      var last := FileStep(before.1, entries[|entries| - 1], skip, read, split);
      (before.0 + last.0, last.1)
  }

  /** The walk over the first i + 1 entries is the walk over the first i followed by entry i. */
  lemma DirectoryOutcomeStep(l: Ledger, entries: seq<Entry>, i: nat, skip: bool, read: Reader, split: Splitter)
    requires i < |entries|
    ensures var before := DirectoryOutcome(l, entries[..i], skip, read, split);
            var last := FileStep(before.1, entries[i], skip, read, split);
            DirectoryOutcome(l, entries[..i + 1], skip, read, split) == (before.0 + last.0, last.1)
  {
    assert entries[..i + 1][..i] == entries[..i];
  }

  function EligibleOnly(entries: seq<Entry>): seq<Entry>
    decreases |entries|
  {
    if entries == [] then []
    else
      var last := entries[|entries| - 1];
      EligibleOnly(entries[..|entries| - 1]) + (if Eligible(last) then [last] else [])
  }

  /** The filter keeps eligible entries only, and all of them, in order. */
  lemma {:induction false} EligibleOnlyFilters(entries: seq<Entry>)
    ensures forall e :: e in EligibleOnly(entries) <==> e in entries && Eligible(e)
    decreases |entries|
  {
    if entries != [] {
      var n := |entries| - 1;
      EligibleOnlyFilters(entries[..n]);
      assert entries == entries[..n] + [entries[n]];
      assert forall e :: e in entries <==> e in entries[..n] || e == entries[n];
    }
  }

  /** Directories, and files of an unsupported type, contribute nothing and are never recorded. */
  lemma {:induction false} DirectoryOnlyEligible(l: Ledger, entries: seq<Entry>, skip: bool, read: Reader, split: Splitter)
    ensures DirectoryOutcome(l, entries, skip, read, split) == DirectoryOutcome(l, EligibleOnly(entries), skip, read, split)
    decreases |entries|
  {
    if entries != [] {
      var n := |entries| - 1;
      var front := entries[..n];
      DirectoryOnlyEligible(l, front, skip, read, split);
      var before := DirectoryOutcome(l, front, skip, read, split);
      var e := EligibleOnly(entries);
      if Eligible(entries[n]) {
        assert e == EligibleOnly(front) + [entries[n]];
        assert e[..|e| - 1] == EligibleOnly(front) && e[|e| - 1] == entries[n];
      } else {
        assert e == EligibleOnly(front) + [];
        assert EligibleOnly(front) + [] == EligibleOnly(front);
        assert DirectoryOutcome(l, entries, skip, read, split) == (before.0 + [], before.1);
        assert before.0 + [] == before.0;
      }
    }
  }

  /** A step leaves the ledger as it was or records the entry's path. */
  lemma StepLedger(l: Ledger, e: Entry, skip: bool, read: Reader, split: Splitter)
    ensures FileStep(l, e, skip, read, split).1 in {l, Recorded(l, e.path)}
  {
  }

  /** Recording a path keeps every line already in a well-terminated ledger. */
  lemma RecordedKeepsLines(l: Ledger, path: string, docId: string)
    requires WellTerminated(l) && InLedger(l, docId)
    ensures InLedger(Recorded(l, path), docId)
  {
    SplitLinesAppend(l.text, path + "\n");
    assert l.text + path + "\n" == l.text + (path + "\n");
  }

  /** One step of the walk keeps a well-terminated ledger well terminated and keeps each of its lines. */
  lemma StepKeepsLines(l: Ledger, e: Entry, skip: bool, read: Reader, split: Splitter, docId: string)
    requires WellTerminated(l)
    ensures WellTerminated(FileStep(l, e, skip, read, split).1)
    ensures InLedger(l, docId) ==> InLedger(FileStep(l, e, skip, read, split).1, docId)
  {
    StepLedger(l, e, skip, read, split);
    if InLedger(l, docId) {
      RecordedKeepsLines(l, e.path, docId);
    }
  }

  /** Processing never removes a line from a well-terminated ledger: a line
      present after the first i entries is still there after all of them. */
  lemma {:induction false} LedgerKeepsLines(l: Ledger, entries: seq<Entry>, i: nat, skip: bool, read: Reader, split: Splitter, docId: string)
    requires WellTerminated(l) && i <= |entries|
    ensures WellTerminated(DirectoryOutcome(l, entries, skip, read, split).1)
    ensures InLedger(DirectoryOutcome(l, entries[..i], skip, read, split).1, docId) ==>
            InLedger(DirectoryOutcome(l, entries, skip, read, split).1, docId)
    decreases |entries|
  {
    if entries == [] {
      assert entries[..i] == entries;
    } else {
      var n := |entries| - 1;
      LedgerKeepsLines(l, entries[..n], Min(i, n), skip, read, split, docId);
      var before := DirectoryOutcome(l, entries[..n], skip, read, split);
      StepKeepsLines(before.1, entries[n], skip, read, split, docId);
      if i == |entries| {
        assert entries[..i] == entries;
      } else {
        assert entries[..n][..i] == entries[..i];
      }
    }
  }

  /** `_process_directory` without skipping records every eligible file that loads. */
  lemma DirectoryRecordsLoaded(l: Ledger, entries: seq<Entry>, read: Reader, split: Splitter, k: nat)
    requires WellTerminated(l)
    requires k < |entries| && Eligible(entries[k]) && HasNoLineBreak(entries[k].path)
    requires LoadResult(entries[k].path, read, split).Ok?
    ensures InLedger(DirectoryOutcome(l, entries, false, read, split).1, entries[k].path)
  {
    var path := entries[k].path;
    LedgerKeepsLines(l, entries[..k], k, false, read, split, path);
    var before := DirectoryOutcome(l, entries[..k], false, read, split);
    RecordedIsProcessed(before.1, path);
    DirectoryOutcomeStep(l, entries, k, false, read, split);
    LedgerKeepsLines(l, entries, k + 1, false, read, split, path);
  }

  // ---------------------------------------------------------------------------
  // The service

  /** An upload: its declared file name (its bytes are not modelled). */
  datatype UploadedFile = UploadedFile(name: string)

  class DocumentLoaderService {
    /** The PROCESSED_DOCS_RECORD file. */
    var ledger: Ledger
    const splitter: Splitter
    /** Config.DOCUMENTS_DIR. */
    const documentsDir: string

    constructor (splitter: Splitter, ledger: Ledger, documentsDir: string)
      ensures this.splitter == splitter && this.ledger == ledger && this.documentsDir == documentsDir
    {
      this.splitter := splitter;
      this.ledger := ledger;
      this.documentsDir := documentsDir;
    }

    /** `load_document`: dispatch on the lower-cased suffix, load, stamp each document, split. */
    method LoadDocument(filePath: string, read: Reader) returns (r: Result<seq<Document>>)
      ensures r == LoadResult(filePath, read, splitter)
    {
      var suffix := Lower(Suffix(filePath));
      if suffix !in SupportedLoaders {
        return Err(UnsupportedFileType(suffix));
      }
      var loaded := read(filePath, SupportedLoaders[suffix]);
      if loaded.None? {
        return Err(LoadFailed);
      }
      var docs := loaded.value;
      var a := new Document[|docs|](k requires 0 <= k < |docs| => docs[k]);
      for i := 0 to a.Length
        invariant forall k :: 0 <= k < a.Length ==> a[k] == if k < i then Stamp(docs[k], filePath) else docs[k]
      {
        a[i] := Stamp(a[i], filePath);
      }
      assert a[..] == StampAll(docs, filePath);
      r := Ok(splitter(a[..]));
    }

    /** `_is_document_processed`. */
    predicate IsDocumentProcessed(docId: string)
      reads this
      ensures IsDocumentProcessed(docId) ==> ledger.Present? && HasNoLineBreak(docId)
    {
      InLedger(ledger, docId)
    }

    /** `_record_processed_document`: append the id and a newline, creating the file if needed. */
    method RecordProcessedDocument(docId: string)
      modifies this
      ensures ledger == Recorded(old(ledger), docId)
    {
      var before := if ledger.Present? then ledger.text else "";
      ledger := Present(before + docId + "\n");
    }

    /** `_process_file`: skip a recorded file, else load and record it; a load error gives []. */
    method ProcessFile(filePath: string, skipProcessed: bool, read: Reader) returns (chunks: seq<Document>)
      modifies this
      ensures (chunks, ledger) == ProcessFileOutcome(old(ledger), filePath, skipProcessed, read, splitter)
    {
      var docId := filePath;
      if skipProcessed && IsDocumentProcessed(docId) {
        return [];
      }
      var loaded := LoadDocument(filePath, read);
      if loaded.Err? {
        return [];
      }
      RecordProcessedDocument(docId);
      chunks := loaded.value;
    }

    /** `_process_directory`: process the supported files in visiting order and concatenate their chunks. */
    method ProcessDirectory(entries: seq<Entry>, skipProcessed: bool, read: Reader) returns (allChunks: seq<Document>)
      modifies this
      ensures (allChunks, ledger) == DirectoryOutcome(old(ledger), entries, skipProcessed, read, splitter)
    {
      allChunks := [];
      for i := 0 to |entries|
        invariant (allChunks, ledger) == DirectoryOutcome(old(ledger), entries[..i], skipProcessed, read, splitter)
      {
        DirectoryOutcomeStep(old(ledger), entries, i, skipProcessed, read, splitter);
        if Eligible(entries[i]) {
          var fileChunks := ProcessFile(entries[i].path, skipProcessed, read);
          allChunks := allChunks + fileChunks;
        } else {
          assert allChunks + [] == allChunks;
        }
      }
      assert entries[..|entries|] == entries;
    }

    /** `batch_process_documents`. */
    static method BatchProcessDocuments(documents: seq<Document>, batchSize: int) returns (r: Result<seq<seq<Document>>>)
      ensures batchSize == 0 ==> r == Err(ZeroBatchSize)
      ensures batchSize < 0 ==> r == Ok([])
      ensures batchSize > 0 ==> r == Ok(Slices(documents, batchSize))
    {
      if batchSize == 0 {
        return Err(ZeroBatchSize);
      }
      if batchSize < 0 {
        return Ok([]);
      }
      var batches := [];
      var i := 0;
      assert documents[0..] == documents;
      while i < |documents|
        invariant 0 <= i
        invariant batches + Slices(documents[Min(i, |documents|)..], batchSize) == Slices(documents, batchSize)
      {
        var next := Min(i + batchSize, |documents|);
        assert batches + [documents[i..next]] + Slices(documents[next..], batchSize) == Slices(documents, batchSize) by {
          SlicesFrom(documents, i, batchSize);
          AppendAssoc(batches, [documents[i..next]], Slices(documents[next..], batchSize));
        }
        batches := batches + [documents[i..next]];
        i := i + batchSize;
        assert Min(i, |documents|) == next;
      }
      assert documents[Min(i, |documents|)..] == [] && batches + [] == batches;
      r := Ok(batches);
    }

    /** `save_uploaded_file`: the path the upload is written to. */
    method SaveUploadedFile(upload: Option<UploadedFile>) returns (r: Result<string>)
      ensures upload.None? <==> r == Err(NoUploadFile)
      ensures upload.Some? ==> r == Ok(JoinPath(documentsDir, upload.value.name))
    {
      if upload.None? {
        return Err(NoUploadFile);
      }
      r := Ok(JoinPath(documentsDir, upload.value.name));
    }
  }
}
