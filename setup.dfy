/** Roster entry from the set-up panel: the role a class implies, the record
    a single add builds, and the batch import that turns image files into
    students, deriving each name from its file name. */
module Setup {
  import opened Types
  import opened AppStore

  /** The second-year classes (BTS 2, LP 2 AGITEL, LP 2 UPAF) are mentors;
      every other class is a mentee class. */
  function InferGroupType(c: ClassName): (g: GroupType)
    ensures g == Parrain <==> c in {Bts2, Lp2Agitel, Lp2Upaf}
  {
    if c == Bts2 || c == Lp2Agitel || c == Lp2Upaf then Parrain else Filleul
  }

  /** The inferred role agrees with the rule table: mentor exactly for the
      target classes, mentee exactly for the source classes. */
  lemma InferredRoleFollowsRules(c: ClassName)
    ensures InferGroupType(c) == Parrain <==> IsRuleTarget(c)
    ensures InferGroupType(c) == Filleul <==> IsRuleSource(c)
  {
    PairingRulesWellFormed();
    EveryClassInARule(c);
    match c
    case Bts1 => assert PairingRules[0].source == c;
    case Bts2 => assert PairingRules[0].target == c;
    case Lp1Agitel => assert PairingRules[1].source == c;
    case Lp2Agitel => assert PairingRules[1].target == c;
    case Lp1Upaf => assert PairingRules[2].source == c;
    case Lp2Upaf => assert PairingRules[2].target == c;
  }

  // ---------------------------------------------------------------------------
  // Single add

  /** The placeholder photo used when none was uploaded; `stamp` is the
      clock reading rendered in decimal. */
  function FallbackPhotoUrl(stamp: string): string {
    "https://picsum.photos/200/300?random=" + stamp
  }

  /** The record a single add builds: the clock reading as id, the typed
      name, the uploaded photo or the placeholder, the chosen class, the
      inferred role, not matched. */
  function NewStudent(name: string, c: ClassName, photo: string, idStamp: string, photoStamp: string): (s: Student)
    ensures s.id == idStamp && s.name == name && s.className == c
    ensures s.groupType == InferGroupType(c) && !s.isMatched
    ensures photo != "" ==> s.photoUrl == photo
    ensures photo == "" ==> s.photoUrl == FallbackPhotoUrl(photoStamp)
  {
    Student(idStamp, name, if photo == "" then FallbackPhotoUrl(photoStamp) else photo, c, InferGroupType(c), false)
  }

  // ---------------------------------------------------------------------------
  // File name to display name

  /** The index of the last occurrence of `c`, or -1. */
  function LastIndexOf(s: string, c: char): (r: int)
    ensures -1 <= r < |s|
    ensures r == -1 <==> c !in s
    ensures r >= 0 ==> s[r] == c && c !in s[r + 1..]
  {
    if s == [] then -1
    else if s[|s| - 1] == c then |s| - 1
    else
      var r := LastIndexOf(s[..|s| - 1], c);
      assert s == s[..|s| - 1] + [s[|s| - 1]];
      r
  }

  /** The name has a dot somewhere past its first character. */
  predicate DotAfterFirst(name: string) {
    exists i | 0 < i < |name| :: name[i] == '.'
  }

  /** The prefix before the last dot; the whole name when there is no dot or
      the prefix is empty (a `substring` with a clamped end, then `||`). */
  function StripExtension(name: string): (r: string)
    ensures r == name <==> !DotAfterFirst(name)
    ensures r != name ==>
      && 0 < |r| < |name| && r == name[..|r|] && name[|r|] == '.' && '.' !in name[|r| + 1..]
  {
    var k := LastIndexOf(name, '.');
    if k <= 0 then
      assert !DotAfterFirst(name) by {
        forall i | 0 < i < |name| ensures name[i] != '.' {
          if k == 0 {
            assert name[i] == name[1..][i - 1];
          } else {
            assert name[i] in name;
          }
        }
      }
      name
    else
      var r := name[..k];
      assert |r| == k && name[k] == '.' && r != name;
      r
  }

  /** A base name and a dot-free extension are split apart again. */
  lemma StripExtensionOfBaseAndExtension(base: string, ext: string)
    requires base != [] && '.' !in ext
    ensures StripExtension(base + "." + ext) == base
  {
    var name := base + "." + ext;
    assert name[|base|] == '.';
    assert name[|base| + 1..] == ext;
    assert name[..|base|] == base;
  }

  function SeparatorToSpace(c: char): char {
    if c == '-' || c == '_' then ' ' else c
  }

  /** Every hyphen and underscore becomes a space; every other character is kept. */
  function ReplaceSeparators(s: string): (r: string)
    ensures |r| == |s|
    ensures '-' !in r && '_' !in r
    ensures forall i | 0 <= i < |s| :: (s[i] == '-' || s[i] == '_' ==> r[i] == ' ')
    ensures forall i | 0 <= i < |s| :: (s[i] != '-' && s[i] != '_' ==> r[i] == s[i])
  {
    seq(|s|, i requires 0 <= i < |s| => SeparatorToSpace(s[i]))
  }

  /** The characters `String.prototype.trim` removes: the white space and
      line terminators of the ECMAScript grammar (section 12.2 and 12.3 of
      ECMA-262), including the space separators of Unicode category Zs. */
  predicate IsJsWhitespace(c: char) {
    || c == '\t' || c == '\U{000B}' || c == '\U{000C}' || c == ' ' || c == '\U{00A0}' || c == '\U{FEFF}'
    || c == '\n' || c == '\r' || c == '\U{2028}' || c == '\U{2029}'
    || c == '\U{1680}' || ('\U{2000}' <= c <= '\U{200A}') || c == '\U{202F}' || c == '\U{205F}' || c == '\U{3000}'
  }

  /** The number of white-space characters `s` starts with. */
  function LeadingSpace(s: string): (n: nat)
    ensures n <= |s|
    ensures forall k | 0 <= k < n :: IsJsWhitespace(s[k])
    ensures n < |s| ==> !IsJsWhitespace(s[n])
    decreases |s|
  {
    if s != [] && IsJsWhitespace(s[0]) then 1 + LeadingSpace(s[1..]) else 0
  }

  /** The number of white-space characters `s` ends with. */
  function TrailingSpace(s: string): (n: nat)
    ensures n <= |s|
    ensures forall k | |s| - n <= k < |s| :: IsJsWhitespace(s[k])
    ensures n < |s| ==> !IsJsWhitespace(s[|s| - n - 1])
    decreases |s|
  {
    if s != [] && IsJsWhitespace(s[|s| - 1]) then 1 + TrailingSpace(s[..|s| - 1]) else 0
  }

  function Trim(s: string): (r: string)
    ensures |r| <= |s|
    ensures r != [] ==> !IsJsWhitespace(r[0]) && !IsJsWhitespace(r[|r| - 1])
  {
    var t := s[LeadingSpace(s)..];
    var r := t[..|t| - TrailingSpace(t)];
    assert r != [] ==> r[0] == t[0] && r[|r| - 1] == t[|t| - TrailingSpace(t) - 1];
    r
  }

  /** The trimmed name is a slice of the input with only white space cut
      away on either side, and it neither starts nor ends with white space;
      interior characters are kept. */
  lemma TrimIsCleanSlice(s: string)
    ensures var r := Trim(s);
      exists i, j | 0 <= i <= j <= |s| ::
        && r == s[i..j]
        && (forall k | 0 <= k < i :: IsJsWhitespace(s[k]))
        && (forall k | j <= k < |s| :: IsJsWhitespace(s[k]))
    ensures var r := Trim(s); r != [] ==> !IsJsWhitespace(r[0]) && !IsJsWhitespace(r[|r| - 1])
  {
    var i := LeadingSpace(s);
    var t := s[i..];
    var n := TrailingSpace(t);
    var j := i + |t| - n;
    var r := Trim(s);
    assert r == t[..|t| - n];
    assert r == s[i..j];
    forall k | j <= k < |s|
      ensures IsJsWhitespace(s[k])
    {
      assert s[k] == t[k - i];
    }
    if r != [] {
      assert r[0] == t[0] == s[i];
      assert r[|r| - 1] == t[|t| - n - 1];
    }
  }

  lemma TrimIdempotent(s: string)
    ensures Trim(Trim(s)) == Trim(s)
  {
    var r := Trim(s);
    TrimIsCleanSlice(s);
    assert LeadingSpace(r) == 0;
    assert TrailingSpace(r) == 0;
    assert r[0..] == r;
    assert r[..|r|] == r;
  }

  /** `\w` without the unicode flag: ASCII letters, digits and underscore. */
  predicate IsWordChar(c: char) {
    ('a' <= c <= 'z') || ('A' <= c <= 'Z') || ('0' <= c <= '9') || c == '_'
  }

  /** `toUpperCase` on a `\w` character: only `a`-`z` change. */
  function ToUpper(c: char): (u: char)
    ensures 'a' <= c <= 'z' ==> 'A' <= u <= 'Z' && u as int == c as int - 32
    ensures !('a' <= c <= 'z') ==> u == c
  {
    if 'a' <= c <= 'z' then (c as int - 32) as char else c
  }

  /** Position `i` starts a word: a `\w` character at a word boundary. */
  predicate WordStart(s: string, i: nat)
    requires i < |s|
  {
    IsWordChar(s[i]) && (i == 0 || !IsWordChar(s[i - 1]))
  }

  /** `replace(/\b\w/g, l => l.toUpperCase())`, scanning left to right with
      whether the previous character was a word character. */
  function CapitalizeAfter(prevIsWord: bool, s: string): (r: string)
    ensures |r| == |s|
    decreases |s|
  {
    if s == [] then []
    else
      var c := if IsWordChar(s[0]) && !prevIsWord then ToUpper(s[0]) else s[0];
      [c] + CapitalizeAfter(IsWordChar(s[0]), s[1..])
  }

  /** The character the scan puts at position `i`: upper-cased exactly when
      it is a word character whose predecessor (or, at the start, the
      context) is not one. */
  function CapitalizedAt(prevIsWord: bool, s: string, i: nat): char
    requires i < |s|
  {
    if IsWordChar(s[i]) && (if i == 0 then !prevIsWord else !IsWordChar(s[i - 1])) then ToUpper(s[i]) else s[i]
  }

  lemma {:induction false} CapitalizeAfterAt(prevIsWord: bool, s: string)
    ensures forall i | 0 <= i < |s| :: CapitalizeAfter(prevIsWord, s)[i] == CapitalizedAt(prevIsWord, s, i)
    decreases |s|
  {
    if s != [] {
      var rest := CapitalizeAfter(IsWordChar(s[0]), s[1..]);
      CapitalizeAfterAt(IsWordChar(s[0]), s[1..]);
      var c := if IsWordChar(s[0]) && !prevIsWord then ToUpper(s[0]) else s[0];
      var r := CapitalizeAfter(prevIsWord, s);
      assert r == [c] + rest;
      assert r[0] == CapitalizedAt(prevIsWord, s, 0);
      forall i | 1 <= i < |s|
        ensures r[i] == CapitalizedAt(prevIsWord, s, i)
      {
        assert r[i] == rest[i - 1];
        assert rest[i - 1] == CapitalizedAt(IsWordChar(s[0]), s[1..], i - 1);
        assert s[1..][i - 1] == s[i];
        if i > 1 {
          assert s[1..][i - 2] == s[i - 1];
        }
      }
    }
  }

  /** Capitalisation keeps the length and upper-cases exactly the
      characters that start a word. */
  function Capitalize(s: string): (r: string)
    ensures |r| == |s|
    ensures forall i | 0 <= i < |s| :: r[i] == if WordStart(s, i) then ToUpper(s[i]) else s[i]
  {
    CapitalizeAfterAt(false, s);
    CapitalizeAfter(false, s)
  }

  /** Capitalisation changes only lower-case ASCII letters, keeps which
      characters are word characters, and leaves no word starting with one. */
  lemma CapitalizeEffect(s: string)
    ensures var r := Capitalize(s);
      && (forall i | 0 <= i < |s| :: IsWordChar(r[i]) == IsWordChar(s[i]))
      && (forall i | 0 <= i < |s| :: r[i] != s[i] ==> 'a' <= s[i] <= 'z')
      && (forall i | 0 <= i < |s| :: WordStart(r, i) ==> !('a' <= r[i] <= 'z'))
  {
    var r := Capitalize(s);
    forall i | 0 <= i < |s|
      ensures IsWordChar(r[i]) == IsWordChar(s[i])
    {
    }
    forall i | 0 <= i < |s| && WordStart(r, i)
      ensures !('a' <= r[i] <= 'z')
    {
      assert IsWordChar(s[i]);
      if i > 0 {
        assert IsWordChar(r[i - 1]) == IsWordChar(s[i - 1]);
      }
    }
  }

  lemma CapitalizeIdempotent(s: string)
    ensures Capitalize(Capitalize(s)) == Capitalize(s)
  {
    var r := Capitalize(s);
    CapitalizeEffect(s);
    forall i | 0 <= i < |s|
      ensures Capitalize(r)[i] == r[i]
    {
      if WordStart(r, i) {
        assert !('a' <= r[i] <= 'z');
      }
    }
  }

  /** The four steps, in order. */
  function DeriveName(fileName: string): (r: string)
    ensures |r| <= |fileName|
  {
    Capitalize(Trim(ReplaceSeparators(StripExtension(fileName))))
  }

  lemma TrimKeepsAbsentChar(s: string, c: char)
    requires c !in s
    ensures c !in Trim(s)
  {
    TrimIsCleanSlice(s);
  }

  /** Capitalisation adds no hyphen or underscore and keeps white space at
      either end as it was. */
  lemma CapitalizeKeepsSeparatorsAndEdges(t: string)
    requires '-' !in t && '_' !in t
    ensures var n := Capitalize(t);
      && '-' !in n && '_' !in n
      && (n != [] ==> n[0] == t[0] || 'a' <= t[0] <= 'z')
      && (n != [] ==> n[|n| - 1] == t[|t| - 1] || 'a' <= t[|t| - 1] <= 'z')
  {
    var n := Capitalize(t);
    CapitalizeEffect(t);
    forall k | 0 <= k < |n|
      ensures n[k] != '-' && n[k] != '_'
    {
      if n[k] != t[k] {
        assert 'a' <= t[k] <= 'z';
      }
    }
  }

  /** A derived name has no hyphen or underscore, does not start or end with
      white space, and no word in it starts with a lower-case ASCII letter. */
  lemma DerivedNameIsClean(fileName: string)
    ensures var n := DeriveName(fileName);
      && '-' !in n && '_' !in n
      && (n != [] ==> !IsJsWhitespace(n[0]) && !IsJsWhitespace(n[|n| - 1]))
      && (forall i | 0 <= i < |n| :: WordStart(n, i) ==> !('a' <= n[i] <= 'z'))
  {
    var a := ReplaceSeparators(StripExtension(fileName));
    var t := Trim(a);
    TrimKeepsAbsentChar(a, '-');
    TrimKeepsAbsentChar(a, '_');
    TrimIsCleanSlice(a);
    CapitalizeKeepsSeparatorsAndEdges(t);
    CapitalizeEffect(t);
  }

  // ---------------------------------------------------------------------------
  // Batch import

  /** A picked file: its name, its MIME type and its content read as a data URL. */
  datatype UploadFile = UploadFile(name: string, mimeType: string, dataUrl: string)

  predicate IsImage(f: UploadFile) {
    |f.mimeType| >= 6 && f.mimeType[..6] == "image/"
  }

  /** The student a batch builds from one image file and its id. */
  function BatchStudent(f: UploadFile, id: string, c: ClassName): (s: Student)
    ensures s.id == id && s.name == DeriveName(f.name) && s.photoUrl == f.dataUrl
    ensures s.className == c && s.groupType == InferGroupType(c) && !s.isMatched
  {
    Student(id, DeriveName(f.name), f.dataUrl, c, InferGroupType(c), false)
  }

  /** What one file adds to a batch: its student when it is an image, nothing otherwise. */
  function FileContribution(f: UploadFile, id: string, c: ClassName): seq<Student> {
    if IsImage(f) then [BatchStudent(f, id, c)] else []
  }

  /** The students a batch import builds: one per image file, in file order;
      `ids[k]` is the id generated for `files[k]`. */
  function BuildBatch(files: seq<UploadFile>, ids: seq<string>, c: ClassName): seq<Student>
    requires |ids| == |files|
  {
    Concat(Zip(files, ids, (f, id) => FileContribution(f, id, c)))
  }

  /** `f` applied to the elements of `xs` and `ys` at equal positions. */
  function Zip<A, B, R>(xs: seq<A>, ys: seq<B>, f: (A, B) -> R): (r: seq<R>)
    requires |xs| == |ys|
    ensures |r| == |xs|
    decreases |xs|
  {
    if xs == [] then [] else [f(xs[0], ys[0])] + Zip(xs[1..], ys[1..], f)
  }

  lemma {:induction false} ZipAppend<A, B, R>(x1: seq<A>, y1: seq<B>, x2: seq<A>, y2: seq<B>, f: (A, B) -> R)
    requires |x1| == |y1| && |x2| == |y2|
    ensures Zip(x1 + x2, y1 + y2, f) == Zip(x1, y1, f) + Zip(x2, y2, f)
    decreases |x1|
  {
    if x1 == [] {
      assert x1 + x2 == x2 && y1 + y2 == y2;
    } else {
      assert (x1 + x2)[1..] == x1[1..] + x2;
      assert (y1 + y2)[1..] == y1[1..] + y2;
      ZipAppend(x1[1..], y1[1..], x2, y2, f);
    }
  }

  function Concat<T>(parts: seq<seq<T>>): seq<T>
    decreases |parts|
  {
    if parts == [] then [] else parts[0] + Concat(parts[1..])
  }

  lemma {:induction false} ConcatAppend<T>(a: seq<seq<T>>, b: seq<seq<T>>)
    ensures Concat(a + b) == Concat(a) + Concat(b)
    decreases |a|
  {
    if a == [] {
      assert a + b == b;
    } else {
      assert (a + b)[1..] == a[1..] + b;
      ConcatAppend(a[1..], b);
    }
  }

  function CountImages(files: seq<UploadFile>): nat
    decreases |files|
  {
    if files == [] then 0 else (if IsImage(files[0]) then 1 else 0) + CountImages(files[1..])
  }

  /** Building a batch of two lists of files is building each in turn. */
  lemma BuildBatchAppend(f1: seq<UploadFile>, i1: seq<string>, f2: seq<UploadFile>, i2: seq<string>, c: ClassName)
    requires |i1| == |f1| && |i2| == |f2|
    ensures BuildBatch(f1 + f2, i1 + i2, c) == BuildBatch(f1, i1, c) + BuildBatch(f2, i2, c)
  {
    var contribution := (f, id) => FileContribution(f, id, c);
    ZipAppend(f1, i1, f2, i2, contribution);
    ConcatAppend(Zip(f1, i1, contribution), Zip(f2, i2, contribution));
  }

  /** A single file contributes its student when it is an image, and nothing otherwise. */
  lemma BuildBatchSingle(f: UploadFile, id: string, c: ClassName)
    ensures BuildBatch([f], [id], c) == if IsImage(f) then [BatchStudent(f, id, c)] else []
  {
    var contribution := (f, id) => FileContribution(f, id, c);
    assert [f][1..] == [] && [id][1..] == [];
    assert Zip([f], [id], contribution) == [FileContribution(f, id, c)];
    assert [FileContribution(f, id, c)][1..] == [];
    assert Concat([FileContribution(f, id, c)]) == FileContribution(f, id, c) + Concat([]);
  }

  /** A batch holds one student per image file, each with the batch class,
      the class's inferred role and not matched. */
  lemma {:induction false} BatchShape(files: seq<UploadFile>, ids: seq<string>, c: ClassName)
    requires |ids| == |files|
    ensures var b := BuildBatch(files, ids, c);
      && |b| == CountImages(files)
      && forall k | 0 <= k < |b| :: b[k].className == c && b[k].groupType == InferGroupType(c) && !b[k].isMatched
    decreases |files|
  {
    if files != [] {
      assert files == [files[0]] + files[1..];
      assert ids == [ids[0]] + ids[1..];
      BuildBatchAppend([files[0]], [ids[0]], files[1..], ids[1..], c);
      BuildBatchSingle(files[0], ids[0], c);
      BatchShape(files[1..], ids[1..], c);
    }
  }

  /** The batch of the first `k + 1` files extends that of the first `k`
      by the contribution of file `k`. */
  lemma BuildBatchStep(files: seq<UploadFile>, ids: seq<string>, k: nat, c: ClassName)
    requires |ids| == |files| && k < |files|
    ensures BuildBatch(files[..k + 1], ids[..k + 1], c)
      == BuildBatch(files[..k], ids[..k], c) + (if IsImage(files[k]) then [BatchStudent(files[k], ids[k], c)] else [])
  {
    assert files[..k + 1] == files[..k] + [files[k]];
    assert ids[..k + 1] == ids[..k] + [ids[k]];
    BuildBatchAppend(files[..k], ids[..k], [files[k]], [ids[k]], c);
    BuildBatchSingle(files[k], ids[k], c);
  }

  /** The loop of the batch handler: skip non-images, turn each image into a
      student, push it. */
  method ProcessFiles(files: seq<UploadFile>, ids: seq<string>, c: ClassName) returns (processed: seq<Student>)
    requires |ids| == |files|
    ensures processed == BuildBatch(files, ids, c)
  {
    processed := [];
    for k := 0 to |files|
      invariant processed == BuildBatch(files[..k], ids[..k], c)
    {
      BuildBatchStep(files, ids, k, c);
      if !IsImage(files[k]) {
        continue;
      }
      var student := BatchStudent(files[k], ids[k], c);
      processed := processed + [student];
    }
    assert files[..|files|] == files;
    assert ids[..|ids|] == ids;
  }

  // ---------------------------------------------------------------------------
  // The panel

  class SetupPanel {
    const store: Store
    var newName: string
    var newClass: ClassName
    var newPhoto: string
    var batchClass: ClassName

    constructor (store: Store)
      ensures this.store == store
      ensures newName == "" && newClass == Bts1 && newPhoto == "" && batchClass == Bts1
    {
      this.store := store;
      newName := "";
      newClass := Bts1;
      newPhoto := "";
      batchClass := Bts1;
    }

    /** The add button: nothing without a name; otherwise one student is
        appended and the name and photo fields are cleared. */
    method HandleAdd(idStamp: string, photoStamp: string)
      modifies this, store
      ensures old(newName) == "" ==>
        store.State() == old(store.State()) && newName == old(newName) && newPhoto == old(newPhoto)
      ensures old(newName) != "" ==>
        && store.students == old(store.students) + [NewStudent(old(newName), old(newClass), old(newPhoto), idStamp, photoStamp)]
        && store.matches == old(store.matches) && store.settings == old(store.settings)
        && newName == "" && newPhoto == ""
      ensures newClass == old(newClass) && batchClass == old(batchClass)
    {
      if newName == "" {
        return;
      }
      var student := NewStudent(newName, newClass, newPhoto, idStamp, photoStamp);
      store.AddStudent(student);
      newName := "";
      newPhoto := "";
    }

    /** The folder import: nothing without files; otherwise every image file
        becomes a student of the batch class, all appended in one call. */
    method HandleBatchUpload(files: seq<UploadFile>, ids: seq<string>)
      requires |ids| == |files|
      modifies store
      ensures files == [] ==> store.State() == old(store.State())
      ensures files != [] ==>
        && store.students == old(store.students) + BuildBatch(files, ids, batchClass)
        && store.matches == old(store.matches) && store.settings == old(store.settings)
    {
      if |files| == 0 {
        return;
      }
      var processed := ProcessFiles(files, ids, batchClass);
      store.AddStudents(processed);
    }
  }
}
