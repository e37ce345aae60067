/** Where each evidence file goes in a bundle: no two files ever get one path. */
module BundlePaths {
  import opened Common
  import opened Text

  // ---------------------------------------------------------------- file names

  datatype CharKind = Alphanumerics | SlugChars | Digits | NoSlash | NoCapital

  predicate Is(c: char, kind: CharKind) {
    match kind
    case Alphanumerics => 'a' <= c <= 'z' || '0' <= c <= '9'
    case SlugChars => 'a' <= c <= 'z' || '0' <= c <= '9' || c == '_'
    case Digits => '0' <= c <= '9'
    case NoSlash => c != '/'
    case NoCapital => !('A' <= c <= 'Z')
  }

  predicate All(s: string, kind: CharKind) {
    forall i :: 0 <= i < |s| ==> Is(s[i], kind)
  }

  /** Each run of other characters becomes one underscore. */
  function Squashed(s: string): (slug: string)
    ensures All(slug, SlugChars)
  {
    if s == "" then ""
    else
      var init, c := Squashed(s[..|s| - 1]), s[|s| - 1];
      if Is(c, Alphanumerics) then init + [c]
      else if |s| > 1 && !Is(s[|s| - 2], Alphanumerics) then init
      else init + "_"
  }

  function TrimLeft(s: string): (t: string)
    ensures All(s, SlugChars) ==> All(t, SlugChars)
  {
    if s != "" && s[0] == '_' then TrimLeft(s[1..]) else s
  }

  function TrimRight(s: string): (t: string)
    ensures All(s, SlugChars) ==> All(t, SlugChars)
  {
    if s != "" && s[|s| - 1] == '_' then TrimRight(s[..|s| - 1]) else s
  }

  function SafeSlug(name: string): (slug: string)
    ensures All(slug, SlugChars) && |slug| <= 40
  {
    var slug := TrimRight(TrimLeft(Squashed(Lower(name))));
    if |slug| > 40 then slug[..40] else slug
  }

  const EXTENSIONS: map<string, string> := map[
    "image/png" := ".png",
    "image/jpeg" := ".jpg",
    "image/gif" := ".gif",
    "image/webp" := ".webp",
    "application/pdf" := ".pdf",
    "application/msword" := ".doc",
    "application/vnd.openxmlformats-officedocument.wordprocessingml.document" := ".docx",
    "application/vnd.ms-excel" := ".xls",
    "application/vnd.openxmlformats-officedocument.spreadsheetml.sheet" := ".xlsx",
    "text/plain" := ".txt",
    "text/csv" := ".csv"
  ]

  predicate IsExtension(e: string) {
    e == "" || (e[0] == '.' && All(e[1..], Alphanumerics))
  }

  function ExtensionOf(mime: Option<string>): (e: string)
    ensures IsExtension(e)
  {
    var m := if mime.Some? then mime.value else "";
    if m in EXTENSIONS then EXTENSIONS[m] else ""
  }

  function Decimal(n: nat): (d: string)
    ensures d != "" && All(d, Digits)
  {
    if n < 10 then [(n + '0' as int) as char] else Decimal(n / 10) + [(n % 10 + '0' as int) as char]
  }

  lemma DecimalTellsNumbers(m: nat, n: nat)
    requires Decimal(m) == Decimal(n)
    ensures m == n
  {
    DecimalReads(m);
    DecimalReads(n);
  }

  /** The number a text of digits says. */
  function Reading(d: string): int
    requires All(d, Digits)
  {
    if d == "" then 0 else 10 * Reading(d[..|d| - 1]) + (d[|d| - 1] as int - '0' as int)
  }

  /** Written out, a number reads as itself, with no zero before it. */
  lemma {:induction false} DecimalReads(n: nat)
    ensures Reading(Decimal(n)) == n && (n > 0 ==> Decimal(n)[0] != '0')
  {
    var d := Decimal(n);
    if n >= 10 {
      DecimalReads(n / 10);
      assert d[..|d| - 1] == Decimal(n / 10);
    } else {
      assert d[..0] == "";
    }
  }

  // ---------------------------------------------------------------- what a slug keeps

  /** The letters and digits of a text, in order. */
  function Letters(s: string): string {
    if s == "" then ""
    else Letters(s[..|s| - 1]) + if Is(s[|s| - 1], Alphanumerics) then [s[|s| - 1]] else ""
  }

  lemma {:induction false} LettersAppend(s: string, t: string)
    ensures Letters(s + t) == Letters(s) + Letters(t)
  {
    if t == "" {
      assert s + t == s;
    } else {
      assert (s + t)[..|s + t| - 1] == s + t[..|t| - 1];
      LettersAppend(s, t[..|t| - 1]);
    }
  }

  lemma OneLetter(c: char)
    ensures Letters([c]) == if Is(c, Alphanumerics) then [c] else ""
  {
    assert [c][..0] == "";
  }

  /** No two underscores together: each stands for a whole run of other characters. */
  predicate Spaced(s: string) {
    forall i :: 0 <= i < |s| - 1 ==> s[i] != '_' || s[i + 1] != '_'
  }

  lemma {:induction false} SquashedKeeps(s: string)
    ensures Letters(Squashed(s)) == Letters(s)
  {
    if s != "" {
      var init, c := s[..|s| - 1], s[|s| - 1];
      SquashedKeeps(init);
      OneLetter(c);
      OneLetter('_');
      LettersAppend(Squashed(init), [c]);
      LettersAppend(Squashed(init), "_");
    }
  }

  /** It ends in an underscore exactly where the text ends in another character. */
  ghost predicate EndsAlike(s: string, slug: string) {
    s != "" ==> slug != "" && (Is(s[|s| - 1], Alphanumerics) <==> slug[|slug| - 1] != '_')
  }

  lemma {:induction false} SquashedIsSpaced(s: string)
    ensures Spaced(Squashed(s)) && EndsAlike(s, Squashed(s))
  {
    if s != "" {
      var init, c := s[..|s| - 1], s[|s| - 1];
      SquashedIsSpaced(init);
      if Is(c, Alphanumerics) {
        SpacedAppend(Squashed(init), c);
      } else if |s| == 1 || Is(s[|s| - 2], Alphanumerics) {
        assert |s| > 1 ==> init[|init| - 1] == s[|s| - 2];
        SpacedAppend(Squashed(init), '_');
      }
    }
  }

  lemma SpacedAppend(slug: string, c: char)
    requires Spaced(slug) && (slug == "" || slug[|slug| - 1] != '_' || c != '_')
    ensures Spaced(slug + [c])
  {
  }

  lemma {:induction false} TrimLeftKeeps(s: string)
    ensures Letters(TrimLeft(s)) == Letters(s) && (Spaced(s) ==> Spaced(TrimLeft(s)))
    ensures TrimLeft(s) != "" ==> TrimLeft(s)[0] != '_'
  {
    if s != "" && s[0] == '_' {
      TrimLeftKeeps(s[1..]);
      assert s == ['_'] + s[1..];
      OneLetter('_');
      LettersAppend(['_'], s[1..]);
    }
  }

  lemma {:induction false} TrimRightKeeps(s: string)
    ensures Letters(TrimRight(s)) == Letters(s) && (Spaced(s) ==> Spaced(TrimRight(s)))
    ensures TrimRight(s) != "" ==> TrimRight(s)[|TrimRight(s)| - 1] != '_' && TrimRight(s)[0] == s[0]
  {
    if s != "" && s[|s| - 1] == '_' {
      TrimRightKeeps(s[..|s| - 1]);
    }
  }

  /** A slug keeps the letters and digits of the name, lower-cased, in order, and but for the cut at forty
      all of them; single underscores stand between, none at the start. */
  lemma SlugKeepsTheName(name: string)
    ensures var slug := SafeSlug(name);
            && Letters(slug) <= Letters(Lower(name)) && Spaced(slug) && (slug != "" ==> slug[0] != '_')
            && (|slug| < 40 ==> Letters(slug) == Letters(Lower(name)) && (slug != "" ==> slug[|slug| - 1] != '_'))
  {
    var squashed := Squashed(Lower(name));
    var left := TrimLeft(squashed);
    var whole := TrimRight(left);
    SquashedKeeps(Lower(name));
    SquashedIsSpaced(Lower(name));
    TrimLeftKeeps(squashed);
    TrimRightKeeps(left);
    if |whole| > 40 {
      assert whole == whole[..40] + whole[40..];
      LettersAppend(whole[..40], whole[40..]);
    }
  }

  /** A name that is a slug already is its own slug: every underscore in it is kept. */
  lemma SlugOfASlug(t: string)
    requires All(t, SlugChars) && |t| <= 40 && Spaced(t) && (t != "" ==> t[0] != '_' && t[|t| - 1] != '_')
    ensures SafeSlug(t) == t
  {
    assert Lower(t) == t;
    SquashedIsSame(t);
  }

  lemma {:induction false} SquashedIsSame(t: string)
    requires All(t, SlugChars) && Spaced(t)
    ensures Squashed(t) == t
  {
    if t != "" {
      var init := t[..|t| - 1];
      SquashedIsSame(init);
      assert t == init + [t[|t| - 1]];
      assert |t| > 1 ==> t[|t| - 2] != '_' || t[|t| - 2 + 1] != '_';
    }
  }

  /** The kinds of file there are extensions for are told apart by them; any other has none. */
  lemma ExtensionsTellKinds(m: string, n: string)
    ensures m in EXTENSIONS <==> ExtensionOf(Some(m)) != ""
    ensures m in EXTENSIONS && ExtensionOf(Some(m)) == ExtensionOf(Some(n)) ==> m == n
    ensures ExtensionOf(None) == ""
  {
  }

  // ---------------------------------------------------------------- one path

  /** The first eight characters of an evidence id: hexadecimal digits. */
  type ShortId = s: string | s != "" && All(s, Alphanumerics) witness "00000000"

  type Slug = s: string | s != "" && All(s, SlugChars) witness "a"

  type Extension = e: string | IsExtension(e) witness ""

  /** A key of the reference catalog: never free text, so nothing with a slash in it. */
  type Segment = s: string | All(s, NoSlash) witness ""

  datatype CatalogKey = CatalogKey(family: Segment, control: Segment, objective: Segment)

  /** The folder of one objective's copy of its evidence. */
  function ObjectiveFolder(k: CatalogKey): string {
    "evidence" + "/" + k.family + "/" + k.control + "/" + k.objective
  }

  /** The folder of what is linked to no objective. */
  function UnlinkedFolder(): string {
    "evidence" + "/" + "unlinked"
  }

  /** One evidence file as it is stored. */
  datatype EvidenceFile = EvidenceFile(title: string, mime: Option<string>, id: ShortId, content: string)

  datatype LinkedFile = LinkedFile(objective: CatalogKey, file: EvidenceFile)

  /** And as it is placed: under its folder, by its slug and extension. */
  datatype Placement = Placement(folder: string, slug: Slug, ext: Extension, content: string)

  function PlacementOf(folder: string, f: EvidenceFile): Placement {
    Placement(folder, if SafeSlug(f.title) == "" then f.id else SafeSlug(f.title), ExtensionOf(f.mime), f.content)
  }

  function NameKey(p: Placement): string {
    Lower(p.slug + p.ext)
  }

  /** The n-th file of its name in its folder, counting from 0. */
  function FileName(p: Placement, n: nat): string {
    if n == 0 then p.slug + p.ext else p.slug + "-" + Decimal(n + 1) + p.ext
  }

  function PathFor(p: Placement, n: nat): string {
    p.folder + "/" + FileName(p, n)
  }

  // ---------------------------------------------------------------- names tell files apart

  /** Where two texts end, if both are as long as they can be of one kind of character. */
  lemma {:induction false} SplitIsUnique(a: string, x: string, b: string, y: string, kind: CharKind)
    requires All(a, kind) && All(b, kind) && a + x == b + y
    requires (x == "" || !Is(x[0], kind)) && (y == "" || !Is(y[0], kind))
    ensures a == b && x == y
  {
    HeadOf(a, x);
    HeadOf(b, y);
    if a != "" && b != "" {
      SplitIsUnique(a[1..], x, b[1..], y, kind);
      assert a == [a[0]] + a[1..] && b == [b[0]] + b[1..];
    }
  }

  lemma HeadOf(a: string, x: string)
    ensures a == "" ==> a + x == x
    ensures a != "" ==> (a + x)[0] == a[0] && (a + x)[1..] == a[1..] + x
  {
  }

  function Suffix(n: nat): string {
    if n == 0 then "" else "-" + Decimal(n + 1)
  }

  lemma NameIsSlugAndRest(p: Placement, n: nat)
    ensures FileName(p, n) == p.slug + (Suffix(n) + p.ext)
  {
  }

  /** A name gives back its slug, its number and its extension. */
  lemma NamesTellFiles(p: Placement, m: nat, q: Placement, n: nat)
    requires FileName(p, m) == FileName(q, n)
    ensures p.slug == q.slug && m == n && p.ext == q.ext
  {
    NameIsSlugAndRest(p, m);
    NameIsSlugAndRest(q, n);
    var e, f := p.ext, q.ext;
    SplitIsUnique(p.slug, Suffix(m) + e, q.slug, Suffix(n) + f, SlugChars);
    SuffixesTell(m, e, n, f);
  }

  lemma SuffixesTell(m: nat, e: string, n: nat, f: string)
    requires IsExtension(e) && IsExtension(f) && Suffix(m) + e == Suffix(n) + f
    ensures m == n && e == f
  {
    HeadOf(Suffix(m), e);
    HeadOf(Suffix(n), f);
    if m > 0 && n > 0 {
      assert Suffix(m)[1..] == Decimal(m + 1) && Suffix(n)[1..] == Decimal(n + 1);
      SplitIsUnique(Decimal(m + 1), e, Decimal(n + 1), f, Digits);
      DecimalTellsNumbers(m + 1, n + 1);
    }
  }

  lemma NamesAreFlat(p: Placement, n: nat)
    ensures All(FileName(p, n), NoSlash) && All(FileName(p, n), NoCapital)
  {
    NameIsSlugAndRest(p, n);
    var e := p.ext;
    assert e != "" ==> e == ['.'] + e[1..];
    assert All(e, NoSlash) && All(e, NoCapital);
    assert All(Suffix(n), NoSlash) && All(Suffix(n), NoCapital);
  }

  lemma LowerOfFlat(s: string)
    requires All(s, NoCapital)
    ensures Lower(s) == s
  {
  }

  lemma LowerOfJoin(s: string, t: string)
    ensures Lower(s + t) == Lower(s) + Lower(t)
  {
  }

  ghost predicate LastSlashAt(s: string, k: nat) {
    k < |s| && s[k] == '/' && forall i :: k < i < |s| ==> s[i] != '/'
  }

  lemma NameFollowsLastSlash(a: string, x: string)
    requires All(x, NoSlash)
    ensures LastSlashAt(a + "/" + x, |a|)
  {
    var s := a + "/" + x;
    forall i | |a| < i < |s|
      ensures s[i] != '/'
    {
      assert s[i] == x[i - |a| - 1];
    }
  }

  lemma FolderAndNameUnique(a: string, x: string, b: string, y: string)
    requires a + "/" + x == b + "/" + y && All(x, NoSlash) && All(y, NoSlash)
    ensures a == b && x == y
  {
    var s := a + "/" + x;
    NameFollowsLastSlash(a, x);
    NameFollowsLastSlash(b, y);
    assert |a| == |b|;
    assert s[..|a|] == a && s[..|b|] == b;
    assert s[|a| + 1..] == x && s[|b| + 1..] == y;
  }

  lemma NameKeyIs(p: Placement)
    ensures NameKey(p) == p.slug + p.ext
  {
    NamesAreFlat(p, 0);
    LowerOfFlat(FileName(p, 0));
  }

  // ---------------------------------------------------------------- any sequence of placements

  /** How many of these went to this folder under this name. */
  function Earlier(placements: seq<Placement>, folder: string, key: string): nat {
    if placements == [] then 0
    else
      var last := placements[|placements| - 1];
      Earlier(placements[..|placements| - 1], folder, key) + if last.folder == folder && NameKey(last) == key then 1
          else 0
  }

  function PathAt(placements: seq<Placement>, k: nat): string
    requires k < |placements|
  {
    PathFor(placements[k], Earlier(placements[..k], placements[k].folder, NameKey(placements[k])))
  }

  lemma {:induction false} EarlierGrows(placements: seq<Placement>, i: nat, j: nat, folder: string, key: string)
    requires i < j <= |placements| && placements[i].folder == folder && NameKey(placements[i]) == key
    ensures Earlier(placements[..j], folder, key) > Earlier(placements[..i], folder, key)
  {
    assert placements[..j][..j - 1] == placements[..j - 1];
    if i < j - 1 {
      EarlierGrows(placements, i, j - 1, folder, key);
    }
  }

  /** A case-insensitive file system tells apart whatever folders it is given. */
  ghost predicate FoldersApart(placements: seq<Placement>) {
    forall i, j :: 0 <= i < j < |placements| && Lower(placements[i].folder) == Lower(placements[j].folder)
      ==> placements[i].folder == placements[j].folder
  }

  /** Two files in one folder never share a path, whatever their titles. */
  lemma SameFolderApart(placements: seq<Placement>, i: nat, j: nat)
    requires i < j < |placements| && placements[i].folder == placements[j].folder
    ensures var p, q := placements[i], placements[j];
            FileName(p, Earlier(placements[..i], p.folder, NameKey(p)))
                != FileName(q, Earlier(placements[..j], q.folder, NameKey(q)))
  {
    var p, q := placements[i], placements[j];
    var m, n := Earlier(placements[..i], p.folder, NameKey(p)), Earlier(placements[..j], q.folder, NameKey(q));
    if FileName(p, m) == FileName(q, n) {
      NamesTellFiles(p, m, q, n);
      NameKeyIs(p);
      NameKeyIs(q);
      EarlierGrows(placements, i, j, p.folder, NameKey(p));
      assert false;
    }
  }

  /** All the paths of a bundle differ. */
  lemma PathsDiffer(placements: seq<Placement>, i: nat, j: nat)
    requires i < j < |placements|
    ensures PathAt(placements, i) != PathAt(placements, j)
  {
    var p, q := placements[i], placements[j];
    var m, n := Earlier(placements[..i], p.folder, NameKey(p)), Earlier(placements[..j], q.folder, NameKey(q));
    NamesAreFlat(p, m);
    NamesAreFlat(q, n);
    if PathAt(placements, i) == PathAt(placements, j) {
      FolderAndNameUnique(p.folder, FileName(p, m), q.folder, FileName(q, n));
      SameFolderApart(placements, i, j);
    }
  }

  /** Even where upper and lower case are one, if the folders themselves are told apart there. */
  lemma PathsDifferIgnoringCase(placements: seq<Placement>, i: nat, j: nat)
    requires i < j < |placements| && FoldersApart(placements)
    ensures Lower(PathAt(placements, i)) != Lower(PathAt(placements, j))
  {
    var p, q := placements[i], placements[j];
    var m, n := Earlier(placements[..i], p.folder, NameKey(p)), Earlier(placements[..j], q.folder, NameKey(q));
    LowerPath(p, m);
    LowerPath(q, n);
    NamesAreFlat(p, m);
    NamesAreFlat(q, n);
    if Lower(PathAt(placements, i)) == Lower(PathAt(placements, j)) {
      FolderAndNameUnique(Lower(p.folder), FileName(p, m), Lower(q.folder), FileName(q, n));
      SameFolderApart(placements, i, j);
    }
  }

  lemma LowerPath(p: Placement, n: nat)
    ensures Lower(PathFor(p, n)) == Lower(p.folder) + "/" + FileName(p, n)
  {
    NamesAreFlat(p, n);
    LowerOfFlat(FileName(p, n));
    LowerOfSegment(p.folder, FileName(p, n));
  }

  // ---------------------------------------------------------------- the folders of a bundle

  function LinkedPlacements(linked: seq<LinkedFile>): seq<Placement> {
    seq(|linked|, i requires 0 <= i < |linked| => PlacementOf(ObjectiveFolder(linked[i].objective), linked[i].file))
  }

  function UnlinkedPlacements(unlinked: seq<EvidenceFile>): seq<Placement> {
    seq(|unlinked|, i requires 0 <= i < |unlinked| => PlacementOf(UnlinkedFolder(), unlinked[i]))
  }

  /** Each linked file in the folder of its objective, then those linked to none. */
  function BundlePlacements(linked: seq<LinkedFile>, unlinked: seq<EvidenceFile>): seq<Placement> {
    LinkedPlacements(linked) + UnlinkedPlacements(unlinked)
  }

  lemma LowerIsFlat(s: string)
    requires All(s, NoSlash)
    ensures All(Lower(s), NoSlash)
  {
  }

  function LowerKey(k: CatalogKey): CatalogKey {
    LowerIsFlat(k.family);
    LowerIsFlat(k.control);
    LowerIsFlat(k.objective);
    CatalogKey(Lower(k.family), Lower(k.control), Lower(k.objective))
  }

  lemma LowerOfFolder(k: CatalogKey)
    ensures Lower(ObjectiveFolder(k)) == ObjectiveFolder(LowerKey(k))
  {
    LowerOfSegment("evidence", k.family);
    LowerOfSegment("evidence" + "/" + k.family, k.control);
    LowerOfSegment("evidence" + "/" + k.family + "/" + k.control, k.objective);
    LowerOfFlat("evidence");
  }

  lemma LowerOfSegment(folder: string, s: string)
    ensures Lower(folder + "/" + s) == Lower(folder) + "/" + Lower(s)
  {
    LowerOfJoin(folder + "/", s);
    LowerOfJoin(folder, "/");
    LowerOfFlat("/");
  }

  /** A folder gives back its objective, and is never the folder of what is linked to none. */
  lemma FoldersTellObjectives(k: CatalogKey, m: CatalogKey)
    ensures ObjectiveFolder(k) == ObjectiveFolder(m) ==> k == m
    ensures ObjectiveFolder(k) != UnlinkedFolder()
  {
    var a, b := "evidence" + "/" + k.family, "evidence" + "/" + m.family;
    if ObjectiveFolder(k) == ObjectiveFolder(m) {
      FolderAndNameUnique(a + "/" + k.control, k.objective, b + "/" + m.control, m.objective);
      FolderAndNameUnique(a, k.control, b, m.control);
      FolderAndNameUnique("evidence", k.family, "evidence", m.family);
    }
    if ObjectiveFolder(k) == UnlinkedFolder() {
      FolderAndNameUnique(a + "/" + k.control, k.objective, "evidence", "unlinked");
    }
  }

  /** No two objectives of the catalog are one ignoring case. */
  ghost predicate KeysApart(catalog: set<CatalogKey>) {
    forall k, m :: k in catalog && m in catalog && LowerKey(k) == LowerKey(m) ==> k == m
  }

  lemma UnlinkedIsLower()
    ensures Lower(UnlinkedFolder()) == UnlinkedFolder()
  {
    LowerOfSegment("evidence", "unlinked");
    LowerOfFlat("evidence");
    LowerOfFlat("unlinked");
  }

  lemma FolderOfPlacement(linked: seq<LinkedFile>, unlinked: seq<EvidenceFile>, i: nat)
    requires i < |linked| + |unlinked|
    ensures BundlePlacements(linked, unlinked)[i].folder
         == if i < |linked| then ObjectiveFolder(linked[i].objective) else UnlinkedFolder()
  {
  }

  /** So a bundle's folders are told apart on any file system. */
  lemma BundleFoldersApart(catalog: set<CatalogKey>, linked: seq<LinkedFile>, unlinked: seq<EvidenceFile>)
    requires KeysApart(catalog) && forall l :: l in linked ==> l.objective in catalog
    ensures FoldersApart(BundlePlacements(linked, unlinked))
  {
    var all := BundlePlacements(linked, unlinked);
    UnlinkedIsLower();
    forall i, j | 0 <= i < j < |all| && Lower(all[i].folder) == Lower(all[j].folder)
      ensures all[i].folder == all[j].folder
    {
      FolderOfPlacement(linked, unlinked, i);
      FolderOfPlacement(linked, unlinked, j);
      if i < |linked| {
        var k := linked[i].objective;
        LowerOfFolder(k);
        assert linked[i] in linked;
        if j < |linked| {
          LowerOfFolder(linked[j].objective);
          FoldersTellObjectives(LowerKey(k), LowerKey(linked[j].objective));
          assert linked[j] in linked;
        } else {
          FoldersTellObjectives(LowerKey(k), LowerKey(k));
        }
      }
    }
  }

  /** The files of a bundle have different paths even where upper and lower case are one. */
  lemma BundlePathsDiffer(catalog: set<CatalogKey>, linked: seq<LinkedFile>, unlinked: seq<EvidenceFile>, i: nat,
                          j: nat)
    requires KeysApart(catalog) && forall l :: l in linked ==> l.objective in catalog
    requires i < j < |linked| + |unlinked|
    ensures var all := BundlePlacements(linked, unlinked); Lower(PathAt(all, i)) != Lower(PathAt(all, j))
  {
    BundleFoldersApart(catalog, linked, unlinked);
    PathsDifferIgnoringCase(BundlePlacements(linked, unlinked), i, j);
  }

  /** The name of a file: its slug, or the start of its id where the title leaves none; from the second of
      one name on, its number; and its extension. */
  ghost predicate NameSays(f: EvidenceFile, n: nat, name: string) {
    var slug, ext := if SafeSlug(f.title) == "" then f.id else SafeSlug(f.title), ExtensionOf(f.mime);
    if n == 1 then name == slug + ext
    else exists d :: name == slug + "-" + d + ext && All(d, Digits) && Reading(d) == n && d != "" && d[0] != '0'
  }

  /** Every file of a bundle goes to the folder of its objective, or of those linked to none, under its name
      and number there, with its content. */
  lemma BundlePlacesFiles(linked: seq<LinkedFile>, unlinked: seq<EvidenceFile>, i: nat)
    requires i < |linked| + |unlinked|
    ensures var all := BundlePlacements(linked, unlinked);
            var folder := if i < |linked| then
              "evidence/" + linked[i].objective.family + "/" + linked[i].objective.control + "/"
              + linked[i].objective.objective else "evidence/unlinked";
            var file := if i < |linked| then linked[i].file else unlinked[i - |linked|];
            && all[i].content == file.content
            && exists n, name :: n > 0 && NameSays(file, n, name) && PathAt(all, i) == folder + "/" + name
  {
    var all := BundlePlacements(linked, unlinked);
    var file := if i < |linked| then linked[i].file else unlinked[i - |linked|];
    var n := Earlier(all[..i], all[i].folder, NameKey(all[i]));
    FolderOfPlacement(linked, unlinked, i);
    FoldersAre(if i < |linked| then linked[i].objective else CatalogKey("", "", ""));
    assert all[i] == PlacementOf(all[i].folder, file);
    NameIsSaid(all[i].folder, file, n);
  }

  lemma FoldersAre(k: CatalogKey)
    ensures ObjectiveFolder(k) == "evidence/" + k.family + "/" + k.control + "/" + k.objective
    ensures UnlinkedFolder() == "evidence/unlinked"
  {
    assert "evidence" + "/" == "evidence/";
  }

  lemma NameIsSaid(folder: string, f: EvidenceFile, n: nat)
    ensures NameSays(f, n + 1, FileName(PlacementOf(folder, f), n))
  {
    DecimalReads(n + 1);
  }

  // ---------------------------------------------------------------- what placing one file adds

  function Paths(placements: seq<Placement>): (paths: seq<string>)
    ensures |paths| == |placements|
  {
    if placements == [] then []
    else
      var init, last := placements[..|placements| - 1], placements[|placements| - 1];
      Paths(init) + [PathFor(last, Earlier(init, last.folder, NameKey(last)))]
  }

  lemma {:induction false} PathsAt(placements: seq<Placement>, k: nat)
    requires k < |placements|
    ensures Paths(placements)[k] == PathAt(placements, k)
  {
    var init := placements[..|placements| - 1];
    if k < |init| {
      PathsAt(init, k);
      assert init[..k] == placements[..k];
    }
  }

  /** One file for each placement, at the path it was given, and nothing else. */
  ghost predicate AllThere(files: map<string, string>, paths: seq<string>, placed: seq<Placement>)
    requires |paths| == |placed|
  {
    && (forall k :: 0 <= k < |placed| ==> paths[k] in files && files[paths[k]] == placed[k].content)
    && |files| == |placed|
    && forall path :: path in files ==> path in paths
  }

  /** The next path is new, so its file replaces none. */
  lemma NextPathIsNew(placed: seq<Placement>, p: Placement, path: string)
    requires path == PathFor(p, Earlier(placed, p.folder, NameKey(p)))
    ensures Paths(placed + [p]) == Paths(placed) + [path] && path !in Paths(placed)
  {
    var after := placed + [p];
    assert after[..|placed|] == placed;
    forall k | 0 <= k < |placed|
      ensures Paths(placed)[k] != path
    {
      PathsAt(after, k);
      PathsAt(after, |placed|);
      PathsDiffer(after, k, |placed|);
    }
  }

  lemma OneMoreThere(files: map<string, string>, paths: seq<string>, placed: seq<Placement>, path: string, p: Placement)
    requires |paths| == |placed| && AllThere(files, paths, placed) && path !in paths
    ensures path !in files && AllThere(files[path := p.content], paths + [path], placed + [p])
  {
  }

  type Counts = map<string, map<string, nat>>

  function CountIn(seen: Counts, folder: string, key: string): nat {
    if folder in seen && key in seen[folder] then seen[folder][key] else 0
  }

  function CountedUp(seen: Counts, folder: string, key: string): Counts {
    seen[folder := (if folder in seen then seen[folder] else map[])[key := CountIn(seen, folder, key) + 1]]
  }

  ghost predicate Counted(seen: Counts, placed: seq<Placement>) {
    forall folder, key :: CountIn(seen, folder, key) == Earlier(placed, folder, key)
  }

  lemma CountsOneMore(seen: Counts, before: seq<Placement>, p: Placement)
    requires Counted(seen, before)
    ensures Counted(CountedUp(seen, p.folder, NameKey(p)), before + [p])
  {
    assert (before + [p])[..|before|] == before;
  }

  ghost predicate Fits(seen: Counts, files: map<string, string>, placed: seq<Placement>) {
    Counted(seen, placed) && AllThere(files, Paths(placed), placed)
  }

  /** path and after are what assigning the next path gives. */
  ghost predicate Assigns(seen: Counts, p: Placement, path: string, after: Counts) {
    path == PathFor(p, CountIn(seen, p.folder, NameKey(p))) && after == CountedUp(seen, p.folder, NameKey(p))
  }

  lemma PlacingFits(seen: Counts, files: map<string, string>, placed: seq<Placement>, p: Placement, path: string,
                    after: Counts)
    requires Fits(seen, files, placed) && Assigns(seen, p, path, after)
    ensures path !in files && Fits(after, files[path := p.content], placed + [p])
  {
    CountsOneMore(seen, placed, p);
    NextPathIsNew(placed, p, path);
    OneMoreThere(files, Paths(placed), placed, path, p);
  }

  // ---------------------------------------------------------------- as it runs

  class Bundle {
    var seen: Counts
    var files: map<string, string>
    ghost var placed: seq<Placement>

    /** The counts are of the files placed, and each file placed is there, at its own path. */
    ghost predicate Valid()
      reads this
    {
      Fits(seen, files, placed)
    }

    constructor ()
      ensures Valid() && placed == []
    {
      seen, files, placed := map[], map[], [];
    }

    method AssignPath(p: Placement) returns (path: string)
      modifies this`seen
      ensures Assigns(old(seen), p, path, seen)
    {
      var counts := if p.folder in seen then seen[p.folder] else map[];
      var key := NameKey(p);
      var n := if key in counts then counts[key] else 0;
      seen := seen[p.folder := counts[key := n + 1]];
      path := PathFor(p, n);
    }

    /** No file is ever written over. */
    method Place(p: Placement)
      requires Valid()
      modifies this
      ensures Valid() && placed == old(placed) + [p]
    {
      var path := AssignPath(p);
      PlacingFits(old(seen), files, placed, p, path, seen);
      files := files[path := p.content];
      placed := placed + [p];
    }

    /** Those linked to an objective, then those linked to none. */
    method PlaceAll(linked: seq<LinkedFile>, unlinked: seq<EvidenceFile>)
      requires Valid()
      modifies this
      ensures Valid() && placed == old(placed) + BundlePlacements(linked, unlinked)
    {
      ghost var begin, first, second := placed, LinkedPlacements(linked), UnlinkedPlacements(unlinked);
      PlaceEach(LinkedPlacements(linked));
      PlaceEach(UnlinkedPlacements(unlinked));
      TwoParts(begin, first, second);
    }

    method PlaceEach(placements: seq<Placement>)
      requires Valid()
      modifies this
      ensures Valid() && placed == old(placed) + placements
    {
      ghost var begin := placed;
      for i := 0 to |placements|
        invariant Valid() && placed == begin + placements[..i]
      {
        OneMore(begin, placements, i);
        Place(placements[i]);
      }
      assert placements[..|placements|] == placements;
    }
  }

  lemma TwoParts<T>(begin: seq<T>, a: seq<T>, b: seq<T>)
    ensures begin + a + b == begin + (a + b)
  {
  }

  lemma OneMore<T>(begin: seq<T>, s: seq<T>, i: nat)
    requires i < |s|
    ensures begin + s[..i + 1] == begin + s[..i] + [s[i]]
  {
  }
}
