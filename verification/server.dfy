/**
 * Helpers of the asset server: the human-readable file size, the directory
 * listing (hidden entries dropped, directories first, then by name) and the
 * content type chosen from a file name's suffix.
 */
module Server {
  import opened Graph

  // ---------------------------------------------------------------------------
  // Sizes

  const KB: nat := 1024
  const MB: nat := 1024 * 1024

  /** The unit a size is printed in and the number printed with it. */
  function Scale(bytes: nat): (r: (string, real)) {
    if bytes >= MB then ("MB", bytes as real / MB as real)
    else if bytes >= KB then ("KB", bytes as real / KB as real)
    else ("B", bytes as real)
  }

  /** The unit is the largest one that keeps the printed number at least 1, and the number is exact. */
  lemma ScaleIsLargestUnit(bytes: nat)
    ensures var (unit, value) := Scale(bytes);
      && (unit == "MB" <==> bytes >= MB)
      && (unit == "KB" <==> KB <= bytes < MB)
      && (unit == "B" <==> bytes < KB)
      && (unit == "MB" ==> value * MB as real == bytes as real && value >= 1.0)
      && (unit == "KB" ==> value * KB as real == bytes as real && 1.0 <= value < 1024.0)
      && (unit == "B" ==> value == bytes as real && value < 1024.0)
  {
    var (unit, value) := Scale(bytes);
    if unit == "KB" {
      assert value < 1024.0 by {
        assert (bytes as real) < (MB as real);
        assert bytes as real / 1024.0 < (MB as real) / 1024.0;
      }
    }
  }

  /**
   * `format_size`: whole bytes below 1 KB, otherwise the scaled size with two decimals.
   * `fixed2` is Rust's `{:.2}` formatting of the floating-point quotient.
   */
  function FormatSize(bytes: nat, fixed2: real -> string): (s: string)
    ensures bytes < KB ==> s == NatString(bytes) + " B"
    ensures bytes >= KB ==> s == fixed2(Scale(bytes).1) + " " + Scale(bytes).0
  {
    var (unit, value) := Scale(bytes);
    if unit == "B" then NatString(bytes) + " B" else fixed2(value) + " " + unit
  }

  // ---------------------------------------------------------------------------
  // Listing

  /** A directory entry as the file system reports it. */
  datatype Entry = Entry(name: string, path: string, isDir: bool, size: nat)

  /** An item of the listing sent to the file explorer; `kind` is "dir" or "file". */
  datatype FileItem = FileItem(name: string, path: string, kind: string, size: string)

  predicate Hidden(name: string) {
    |name| > 0 && name[0] == '.'
  }

  function ItemOf(e: Entry, fixed2: real -> string): (item: FileItem)
    ensures item.name == e.name && item.path == e.path
    ensures item.kind == "dir" <==> e.isDir
    ensures e.isDir ==> item.size == ""
    ensures !e.isDir ==> item.kind == "file" && item.size == FormatSize(e.size, fixed2)
  {
    if e.isDir then FileItem(e.name, e.path, "dir", "")
    else FileItem(e.name, e.path, "file", FormatSize(e.size, fixed2))
  }

  /** The items of the visible entries, in the order the entries come. */
  function Listing(entries: seq<Entry>, fixed2: real -> string): seq<FileItem> {
    if |entries| == 0 then []
    else
      var last := entries[|entries| - 1];
      Listing(entries[..|entries| - 1], fixed2) + (if Hidden(last.name) then [] else [ItemOf(last, fixed2)])
  }

  /** The listing holds exactly the items of the entries whose names do not start with a dot. */
  lemma {:induction false} ListingContents(entries: seq<Entry>, fixed2: real -> string)
    ensures forall item :: item in Listing(entries, fixed2) ==> !Hidden(item.name)
    ensures forall item :: item in Listing(entries, fixed2) <==>
      exists e :: e in entries && !Hidden(e.name) && item == ItemOf(e, fixed2)
  {
    if |entries| > 0 {
      var init := entries[..|entries| - 1];
      ListingContents(init, fixed2);
      assert entries == init + [entries[|entries| - 1]];
    }
  }

  /** The loops of `list_files` that push one item per visible entry. */
  method Collect(entries: seq<Entry>, fixed2: real -> string) returns (items: seq<FileItem>)
    ensures items == Listing(entries, fixed2)
  {
    items := [];
    var k := 0;
    while k < |entries|
      invariant 0 <= k <= |entries|
      invariant items == Listing(entries[..k], fixed2)
    {
      var e := entries[k];
      assert entries[..k + 1][..k] == entries[..k];
      if !Hidden(e.name) {
        items := items + [ItemOf(e, fixed2)];
      }
      k := k + 1;
    }
    assert entries[..k] == entries;
  }

  // ---------------------------------------------------------------------------
  // Order

  /** Rust's `String` order: lexicographic by character. */
  predicate NameLe(a: string, b: string) {
    if |a| == 0 then true
    else if |b| == 0 then false
    else if a[0] != b[0] then a[0] < b[0]
    else NameLe(a[1..], b[1..])
  }

  lemma {:induction false} NameLeTotal(a: string, b: string)
    ensures NameLe(a, b) || NameLe(b, a)
  {
    if |a| > 0 && |b| > 0 && a[0] == b[0] {
      NameLeTotal(a[1..], b[1..]);
    }
  }

  lemma {:induction false} NameLeTransitive(a: string, b: string, c: string)
    requires NameLe(a, b) && NameLe(b, c)
    ensures NameLe(a, c)
  {
    if |a| > 0 && |b| > 0 && |c| > 0 && a[0] == b[0] && b[0] == c[0] {
      NameLeTransitive(a[1..], b[1..], c[1..]);
    }
  }

  /** Directories rank before everything else. */
  function Rank(item: FileItem): nat {
    if item.kind == "dir" then 0 else 1
  }

  /** The order of the listing's comparator: rank first, then name. */
  predicate ItemLe(x: FileItem, y: FileItem) {
    Rank(x) < Rank(y) || (Rank(x) == Rank(y) && NameLe(x.name, y.name))
  }

  lemma ItemLeTotal(x: FileItem, y: FileItem)
    ensures ItemLe(x, y) || ItemLe(y, x)
  {
    NameLeTotal(x.name, y.name);
  }

  lemma ItemLeTransitive(x: FileItem, y: FileItem, z: FileItem)
    requires ItemLe(x, y) && ItemLe(y, z)
    ensures ItemLe(x, z)
  {
    if Rank(x) == Rank(y) == Rank(z) {
      NameLeTransitive(x.name, y.name, z.name);
    }
  }

  predicate Sorted(s: seq<FileItem>) {
    forall i, j :: 0 <= i < j < |s| ==> ItemLe(s[i], s[j])
  }

  /** In a sorted listing every directory precedes every file, and each group is in name order. */
  lemma SortedDirsFirst(s: seq<FileItem>)
    requires Sorted(s)
    ensures forall i, j :: 0 <= i < j < |s| && s[j].kind == "dir" ==> s[i].kind == "dir"
    ensures forall i, j :: 0 <= i < j < |s| && (s[i].kind == "dir") == (s[j].kind == "dir") ==> NameLe(s[i].name, s[j].name)
  {
    forall i, j | 0 <= i < j < |s| && s[j].kind == "dir"
      ensures s[i].kind == "dir"
    {
      assert ItemLe(s[i], s[j]);
    }
  }

  /** The insertion step's invariant: s[..hi+1] sorted except around position j, whose item is below all after it. */
  predicate SortedAround(s: seq<FileItem>, j: nat, hi: nat)
    requires j <= hi < |s|
  {
    && (forall k, l :: 0 <= k < l <= hi && k != j && l != j ==> ItemLe(s[k], s[l]))
    && (forall l :: j < l <= hi ==> ItemLe(s[j], s[l]))
  }

  /** One exchange of the insertion step keeps its invariant one position further down. */
  lemma SinkStep(s: seq<FileItem>, j: nat, hi: nat)
    requires 0 < j <= hi < |s| && SortedAround(s, j, hi) && !ItemLe(s[j - 1], s[j])
    ensures SortedAround(s[j - 1 := s[j]][j := s[j - 1]], j - 1, hi)
  {
    var t := s[j - 1 := s[j]][j := s[j - 1]];
    ItemLeTotal(s[j - 1], s[j]);
    forall l | j - 1 < l <= hi
      ensures ItemLe(t[j - 1], t[l])
    {
      if l > j {
        assert t[l] == s[l];
      }
    }
  }

  /** When the item at j no longer sinks, the whole prefix up to hi is sorted. */
  lemma SinkDone(s: seq<FileItem>, j: nat, hi: nat)
    requires j <= hi < |s| && SortedAround(s, j, hi) && (j == 0 || ItemLe(s[j - 1], s[j]))
    ensures Sorted(s[..hi + 1])
  {
    forall k, l | 0 <= k < l <= hi
      ensures ItemLe(s[k], s[l])
    {
      if l == j && k < j - 1 {
        ItemLeTransitive(s[k], s[j - 1], s[j]);
      }
    }
  }

  /** A sorted prefix s[..i] with one more item after it is sorted around position i. */
  lemma SortedAroundStart(s: seq<FileItem>, i: nat)
    requires i < |s| && Sorted(s[..i])
    ensures SortedAround(s, i, i)
  {
    forall k, l | 0 <= k < l <= i && k != i && l != i
      ensures ItemLe(s[k], s[l])
    {
      assert s[..i][k] == s[k] && s[..i][l] == s[l];
    }
  }

  /** `items.sort_by(...)`: sorts the listing in place, directories first, then by name. */
  method SortItems(a: array<FileItem>)
    modifies a
    ensures Sorted(a[..])
    ensures multiset(a[..]) == multiset(old(a[..]))
  {
    var i := 0;
    while i < a.Length
      invariant 0 <= i <= a.Length
      invariant Sorted(a[..i])
      invariant multiset(a[..]) == multiset(old(a[..]))
    {
      Sink(a, i);
      i := i + 1;
    }
    assert a[..] == a[..a.Length];
  }

  /** One insertion step: moves a[i] down into the sorted prefix a[..i] by adjacent exchanges. */
  method Sink(a: array<FileItem>, i: nat)
    requires i < a.Length && Sorted(a[..i])
    modifies a
    ensures Sorted(a[..i + 1])
    ensures multiset(a[..]) == multiset(old(a[..]))
  {
    var j := i;
    SortedAroundStart(a[..], i);
    while j > 0 && !ItemLe(a[j - 1], a[j])
      invariant 0 <= j <= i
      invariant SortedAround(a[..], j, i)
      invariant multiset(a[..]) == multiset(old(a[..]))
      decreases j
    {
      SinkStep(a[..], j, i);
      a[j - 1], a[j] := a[j], a[j - 1];
      j := j - 1;
    }
    SinkDone(a[..], j, i);
  }

  /** `list_files` without the file system: the visible entries' items, directories first, then by name. */
  method ListFiles(entries: seq<Entry>, fixed2: real -> string) returns (items: seq<FileItem>)
    ensures multiset(items) == multiset(Listing(entries, fixed2))
    ensures Sorted(items)
  {
    var collected := Collect(entries, fixed2);
    var a := new FileItem[|collected|](i requires 0 <= i < |collected| => collected[i]);
    assert a[..] == collected;
    SortItems(a);
    items := a[..];
  }

  // ---------------------------------------------------------------------------
  // Content types

  predicate EndsWith(s: string, suffix: string) {
    |suffix| <= |s| && s[|s| - |suffix|..] == suffix
  }

  /** The content type `get_asset` serves a file with. */
  function MimeType(name: string): (m: string)
    ensures m in {"image/png", "image/jpeg", "video/mp4", "video/webm", "application/octet-stream"}
  {
    if EndsWith(name, ".png") then "image/png"
    else if EndsWith(name, ".jpg") || EndsWith(name, ".jpeg") then "image/jpeg"
    else if EndsWith(name, ".mp4") then "video/mp4"
    else if EndsWith(name, ".webm") then "video/webm"
    else "application/octet-stream"
  }

  const Suffixes: seq<string> := [".png", ".jpg", ".jpeg", ".mp4", ".webm"]

  /** The type each suffix selects. */
  function TypeOfSuffix(k: nat): string
    requires k < |Suffixes|
  {
    ["image/png", "image/jpeg", "image/jpeg", "video/mp4", "video/webm"][k]
  }

  /** A name ending with a suffix ends with that suffix's last two characters. */
  lemma EndsWithTail(name: string, suffix: string)
    requires |suffix| >= 2
    ensures EndsWith(name, suffix) ==> name[|name| - 1] == suffix[|suffix| - 1] && name[|name| - 2] == suffix[|suffix| - 2]
  {
    if EndsWith(name, suffix) {
      var tail := name[|name| - |suffix|..];
      assert tail[|suffix| - 1] == name[|name| - 1];
      assert tail[|suffix| - 2] == name[|name| - 2];
    }
  }

  /** A name ends with at most one of the suffixes, so the order of the tests does not matter. */
  lemma SuffixesExclusive(name: string, i: nat, j: nat)
    requires i < j < |Suffixes| && EndsWith(name, Suffixes[i])
    ensures !EndsWith(name, Suffixes[j])
  {
    EndsWithTail(name, Suffixes[i]);
    EndsWithTail(name, Suffixes[j]);
  }

  /** A name with one of the known suffixes gets that suffix's type; any other name is a byte stream. */
  lemma MimeBySuffix(name: string)
    ensures forall k :: 0 <= k < |Suffixes| && EndsWith(name, Suffixes[k]) ==> MimeType(name) == TypeOfSuffix(k)
    ensures (forall k :: 0 <= k < |Suffixes| ==> !EndsWith(name, Suffixes[k])) ==> MimeType(name) == "application/octet-stream"
  {
    assert Suffixes[0] == ".png" && Suffixes[1] == ".jpg" && Suffixes[2] == ".jpeg";
    assert Suffixes[3] == ".mp4" && Suffixes[4] == ".webm";
    forall k | 0 <= k < |Suffixes| && EndsWith(name, Suffixes[k])
      ensures MimeType(name) == TypeOfSuffix(k)
    {
      forall i | 0 <= i < k
        ensures !EndsWith(name, Suffixes[i])
      {
        if EndsWith(name, Suffixes[i]) {
          SuffixesExclusive(name, i, k);
        }
      }
    }
  }

  /** ASCII upper case of one character. */
  function UpperChar(ch: char): char {
    if 'a' <= ch <= 'z' then (ch as int - 32) as char else ch
  }

  /** ASCII upper case of a string. */
  function Upper(s: string): (u: string)
    ensures |u| == |s| && forall i :: 0 <= i < |s| ==> u[i] == UpperChar(s[i])
  {
    seq(|s|, i requires 0 <= i < |s| => UpperChar(s[i]))
  }

  /** The test is case-sensitive: a name ending with the upper-case form of a known suffix is a byte stream. */
  lemma MimeCaseSensitive(name: string, k: nat)
    requires k < |Suffixes| && EndsWith(name, Upper(Suffixes[k]))
    ensures MimeType(name) == "application/octet-stream"
  {
    var u := Upper(Suffixes[k]);
    EndsWithTail(name, u);
    var last, penult := name[|name| - 1], name[|name| - 2];
    assert Suffixes[0] == ".png" && Suffixes[1] == ".jpg" && Suffixes[2] == ".jpeg";
    assert Suffixes[3] == ".mp4" && Suffixes[4] == ".webm";
    assert (last == 'G' || last == 'M') || (penult == 'P' && last == '4');
    forall i | 0 <= i < |Suffixes|
      ensures !EndsWith(name, Suffixes[i])
    {
      EndsWithTail(name, Suffixes[i]);
    }
    MimeBySuffix(name);
  }
}
