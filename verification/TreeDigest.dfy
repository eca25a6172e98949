/**
 The deterministic digest of a directory: a line of JSON for every entry, in preorder, hashed.

 Proved here: the hashed text determines the directory.  The listing order and the file hash
 are parameters; nothing is assumed of the order but that it lists every name.
 */
module TreeDigest {
  import opened Wrappers
  import opened Graph
  import opened JsonText

  // What a directory entry can be; links and special files are rejected before hashing.
  datatype Node = File(content: string) | Directory(entries: map<string, Node>)

  datatype Method = Method(order: set<string> -> seq<string>, sha256: string -> string)

  ghost predicate ListsNames(how: Method)
  {
    forall s :: Names(how.order(s)) == s
  }

  ghost predicate CollisionFree(how: Method)
  {
    forall x, y :: how.sha256(x) == how.sha256(y) ==> x == y
  }

  // Names come from one directory level, so they contain no slash.
  ghost predicate ValidNames(node: Node)
  {
    node.Directory? ==>
      forall name :: name in node.entries ==> '/' !in name && ValidNames(node.entries[name])
  }

  datatype Entry = DirectoryEntry(path: string) | FileEntry(path: string, sha256: string, size: nat)

  datatype Entries = Last | More(entry: Entry, rest: Entries)

  // A directory listed in visiting order.
  datatype Listing = Nothing | Listed(name: string, item: Item, rest: Listing)
  datatype Item = FileItem(sha256: string, size: nat) | DirectoryItem(listing: Listing)

  function ItemOf(how: Method, node: Node): Item
    decreases node, 1
  {
    match node
    case File(content) => FileItem(how.sha256(content), |content|)
    case Directory(entries) => DirectoryItem(ListNames(how, node, how.order(entries.Keys)))
  }

  function ListNames(how: Method, directory: Node, names: seq<string>): Listing
    requires directory.Directory?
    decreases directory, 0, |names|
  {
    if names == [] then Nothing
    else if names[0] !in directory.entries then ListNames(how, directory, names[1..])
    else Listed(names[0], ItemOf(how, directory.entries[names[0]]), ListNames(how, directory, names[1..]))
  }

  // The entries that visiting a listing adds, followed by those that come later.
  function Visit(prefix: string, listing: Listing, later: Entries): Entries
    decreases listing
  {
    match listing
    case Nothing => later
    case Listed(name, FileItem(sha256, size), rest) =>
      More(FileEntry(prefix + name, sha256, size), Visit(prefix, rest, later))
    case Listed(name, DirectoryItem(inner), rest) =>
      More(DirectoryEntry(prefix + name), Visit(prefix + name + "/", inner, Visit(prefix, rest, later)))
  }

  // One entry as compact JSON with sorted keys and a newline, and the text after it.
  function Line(entry: Entry, rest: string): string
  {
    match entry
    case DirectoryEntry(path) =>
      "{\"path\":\"" + Quoted(path, ",\"type\":\"directory\"}\n" + rest)
    case FileEntry(path, sha256, size) =>
      "{\"path\":\"" + Quoted(path, ",\"sha256\":\"" +
        Quoted(sha256, ",\"size_bytes\":" + (Decimal(size) + (",\"type\":\"file\"}\n" + rest))))
  }

  function Lines(entries: Entries): string
  {
    match entries
    case Last => ""
    case More(entry, rest) => Line(entry, Lines(rest))
  }

  // The text whose SHA-256 is the digest of a directory.
  function DigestInput(how: Method, directory: Node): string
    requires directory.Directory?
  {
    "nodrix.materialized-tree/v1\n" + Lines(Visit("", ItemOf(how, directory).listing, Last))
  }

  // ---------------------------------------------------------------- the text determines the entries

  lemma LineCut(a: Entry, x: string, b: Entry, y: string)
    requires Line(a, x) == Line(b, y)
    ensures a == b && x == y
  {
    hide Quoted, Decimal;
    var p := "{\"path\":\"";
    var restA := if a.DirectoryEntry? then ",\"type\":\"directory\"}\n" + x
                 else ",\"sha256\":\"" + Quoted(a.sha256, ",\"size_bytes\":" + (Decimal(a.size) + (",\"type\":\"file\"}\n" + x)));
    var restB := if b.DirectoryEntry? then ",\"type\":\"directory\"}\n" + y
                 else ",\"sha256\":\"" + Quoted(b.sha256, ",\"size_bytes\":" + (Decimal(b.size) + (",\"type\":\"file\"}\n" + y)));
    SameLengthCut(p, Quoted(a.path, restA), p, Quoted(b.path, restB));
    QuotedCut(a.path, restA, b.path, restB);
    assert restA[2] == restB[2];
    if a.DirectoryEntry? && b.DirectoryEntry? {
      SameLengthCut(",\"type\":\"directory\"}\n", x, ",\"type\":\"directory\"}\n", y);
    } else if a.FileEntry? && b.FileEntry? {
      FileLineCut(a, x, b, y);
    }
  }

  lemma FileLineCut(a: Entry, x: string, b: Entry, y: string)
    requires a.FileEntry? && b.FileEntry? && a.path == b.path
    requires ",\"sha256\":\"" + Quoted(a.sha256, ",\"size_bytes\":" + (Decimal(a.size) + (",\"type\":\"file\"}\n" + x)))
          == ",\"sha256\":\"" + Quoted(b.sha256, ",\"size_bytes\":" + (Decimal(b.size) + (",\"type\":\"file\"}\n" + y)))
    ensures a == b && x == y
  {
    hide Quoted, Decimal;
    var end := ",\"type\":\"file\"}\n";
    var sizeA, sizeB := Decimal(a.size) + (end + x), Decimal(b.size) + (end + y);
    var s, k := ",\"sha256\":\"", ",\"size_bytes\":";
    SameLengthCut(s, Quoted(a.sha256, k + sizeA), s, Quoted(b.sha256, k + sizeB));
    QuotedCut(a.sha256, k + sizeA, b.sha256, k + sizeB);
    SameLengthCut(k, sizeA, k, sizeB);
    DecimalCut(a.size, end + x, b.size, end + y);
    SameLengthCut(end, x, end, y);
  }

  /** Two entry streams that are written as the same text are the same stream. */
  lemma {:induction false} LinesInjective(a: Entries, b: Entries)
    requires Lines(a) == Lines(b)
    ensures a == b
  {
    hide Line;
    if a.More? && b.More? {
      LineCut(a.entry, Lines(a.rest), b.entry, Lines(b.rest));
      LinesInjective(a.rest, b.rest);
    } else if a.More? {
      LineNotEmpty(a.entry, Lines(a.rest));
    } else if b.More? {
      LineNotEmpty(b.entry, Lines(b.rest));
    }
  }

  lemma LineNotEmpty(entry: Entry, rest: string)
    ensures Line(entry, rest) != ""
  {
    hide Quoted, Decimal;
  }

  // ---------------------------------------------------------------- the entries determine the listing

  function Depth(path: string): nat
  {
    if path == [] then 0 else (if path[0] == '/' then 1 else 0) + Depth(path[1..])
  }

  lemma {:induction false} DepthConcat(a: string, b: string)
    ensures Depth(a + b) == Depth(a) + Depth(b)
  {
    if a == [] {
      assert a + b == b;
    } else {
      assert (a + b)[1..] == a[1..] + b;
      DepthConcat(a[1..], b);
    }
  }

  lemma {:induction false} DepthPlain(name: string)
    requires '/' !in name
    ensures Depth(name) == 0
  {
    if name != [] {
      DepthPlain(name[1..]);
    }
  }

  lemma DepthUnder(prefix: string, name: string)
    requires '/' !in name
    ensures Depth(prefix + name) == Depth(prefix)
    ensures Depth(prefix + name + "/") == Depth(prefix) + 1
  {
    DepthConcat(prefix, name);
    DepthPlain(name);
    DepthConcat(prefix + name, "/");
    assert "/"[1..] == [];
  }

  // Later entries belong to a directory further up.
  ghost predicate Above(entries: Entries, depth: nat)
  {
    entries.More? ==> Depth(entries.entry.path) < depth
  }

  ghost predicate PlainNames(listing: Listing)
  {
    listing.Listed? ==>
      && '/' !in listing.name
      && (listing.item.DirectoryItem? ==> PlainNames(listing.item.listing))
      && PlainNames(listing.rest)
  }

  // The first entry of a listing sits exactly at its own depth.
  lemma VisitStarts(prefix: string, listing: Listing, later: Entries, depth: nat)
    requires PlainNames(listing) && Above(later, depth) && Depth(prefix) < depth
    ensures Above(Visit(prefix, listing, later), depth)
  {
    if listing.Listed? {
      DepthUnder(prefix, listing.name);
    }
  }

  /** Preorder entries can be taken apart again: the depth of a path says where it belongs. */
  lemma {:induction false} VisitInjective(prefix: string, f: Listing, t: Entries, g: Listing, u: Entries)
    requires PlainNames(f) && PlainNames(g)
    requires Above(t, Depth(prefix)) && Above(u, Depth(prefix))
    requires Visit(prefix, f, t) == Visit(prefix, g, u)
    ensures f == g && t == u
    decreases f
  {
    if f.Nothing? || g.Nothing? {
      if f.Listed? {
        DepthUnder(prefix, f.name);
      }
      if g.Listed? {
        DepthUnder(prefix, g.name);
      }
    } else {
      assert prefix + f.name == prefix + g.name;
      SameLengthCut(prefix, f.name, prefix, g.name);
      DepthUnder(prefix, f.name);
      if f.item.DirectoryItem? {
        var below := prefix + f.name + "/";
        VisitStarts(prefix, f.rest, t, Depth(below));
        VisitStarts(prefix, g.rest, u, Depth(below));
        VisitInjective(below, f.item.listing, Visit(prefix, f.rest, t), g.item.listing, Visit(prefix, g.rest, u));
      }
      VisitInjective(prefix, f.rest, t, g.rest, u);
    }
  }

  // ---------------------------------------------------------------- the listing determines the directory

  function Find(listing: Listing, name: string): Option<Item>
  {
    match listing
    case Nothing => None
    case Listed(first, item, rest) => if first == name then Some(item) else Find(rest, name)
  }

  lemma {:induction false} ListingHas(how: Method, directory: Node, names: seq<string>, name: string)
    requires directory.Directory?
    ensures Find(ListNames(how, directory, names), name) ==
            if name in names && name in directory.entries then Some(ItemOf(how, directory.entries[name])) else None
    decreases |names|
  {
    if names != [] {
      ListingHas(how, directory, names[1..], name);
    }
  }

  lemma {:induction false} ListingPlain(how: Method, directory: Node, names: seq<string>)
    requires directory.Directory? && ValidNames(directory)
    ensures PlainNames(ListNames(how, directory, names))
    decreases directory, |names|
  {
    if names != [] {
      ListingPlain(how, directory, names[1..]);
      if names[0] in directory.entries && directory.entries[names[0]].Directory? {
        var child := directory.entries[names[0]];
        ListingPlain(how, child, how.order(child.entries.Keys));
      }
    }
  }

  lemma {:induction false} ItemInjective(how: Method, a: Node, b: Node)
    requires ListsNames(how) && CollisionFree(how)
    requires ItemOf(how, a) == ItemOf(how, b)
    ensures a == b
    decreases a
  {
    if a.Directory? {
      forall name
        ensures name in a.entries <==> name in b.entries
        ensures name in a.entries ==> a.entries[name] == b.entries[name]
      {
        ListingHas(how, a, how.order(a.entries.Keys), name);
        ListingHas(how, b, how.order(b.entries.Keys), name);
        assert name in Names(how.order(a.entries.Keys)) <==> name in a.entries;
        assert name in Names(how.order(b.entries.Keys)) <==> name in b.entries;
        if name in a.entries && name in b.entries {
          ItemInjective(how, a.entries[name], b.entries[name]);
        }
      }
      assert a.entries == b.entries;
    }
  }

  /**
   The hashed text of a directory determines it completely: names, structure, file contents.
   With an injective hash, so does the digest.
   */
  lemma DigestDeterminesDirectory(how: Method, a: Node, b: Node)
    requires ListsNames(how) && CollisionFree(how)
    requires a.Directory? && b.Directory? && ValidNames(a) && ValidNames(b)
    requires how.sha256(DigestInput(how, a)) == how.sha256(DigestInput(how, b))
    ensures a == b
  {
    var f, g := ItemOf(how, a).listing, ItemOf(how, b).listing;
    var schema := "nodrix.materialized-tree/v1\n";
    SameLengthCut(schema, Lines(Visit("", f, Last)), schema, Lines(Visit("", g, Last)));
    LinesInjective(Visit("", f, Last), Visit("", g, Last));
    ListingPlain(how, a, how.order(a.entries.Keys));
    ListingPlain(how, b, how.order(b.entries.Keys));
    VisitInjective("", f, Last, g, Last);
    ItemInjective(how, a, b);
  }

  // ---------------------------------------------------------------- hashing step by step

  // The bytes below a listing: the sizes of its files, at every depth.
  function Bytes(listing: Listing): nat
  {
    match listing
    case Nothing => 0
    case Listed(_, FileItem(_, size), rest) => size + Bytes(rest)
    case Listed(_, DirectoryItem(inner), rest) => Bytes(inner) + Bytes(rest)
  }

  lemma LineThen(entry: Entry, rest: string)
    ensures Line(entry, rest) == Line(entry, "") + rest
  {
    hide Quoted, Decimal;
    match entry
    case DirectoryEntry(path) =>
      var end := ",\"type\":\"directory\"}\n";
      QuotedThen(path, end, rest);
      assert end + "" == end;
    case FileEntry(path, sha256, size) =>
      var end := ",\"type\":\"file\"}\n";
      var k := ",\"size_bytes\":" + (Decimal(size) + end);
      var s := ",\"sha256\":\"" + Quoted(sha256, k);
      QuotedThen(sha256, k, rest);
      QuotedThen(path, s, rest);
      assert end + "" == end;
      assert ",\"size_bytes\":" + (Decimal(size) + (end + rest)) == k + rest;
      assert ",\"sha256\":\"" + Quoted(sha256, k + rest) == s + rest;
  }

  lemma {:induction false} VisitThen(prefix: string, listing: Listing, later: Entries)
    ensures Lines(Visit(prefix, listing, later)) == Lines(Visit(prefix, listing, Last)) + Lines(later)
    decreases listing
  {
    hide Line;
    match listing
    case Nothing =>
    case Listed(name, FileItem(sha256, size), rest) =>
      var entry := FileEntry(prefix + name, sha256, size);
      VisitThen(prefix, rest, later);
      LineThen(entry, Lines(Visit(prefix, rest, later)));
      LineThen(entry, Lines(Visit(prefix, rest, Last)));
    case Listed(name, DirectoryItem(inner), rest) =>
      var entry, below := DirectoryEntry(prefix + name), prefix + name + "/";
      VisitThen(prefix, rest, later);
      VisitThen(below, inner, Visit(prefix, rest, later));
      VisitThen(below, inner, Visit(prefix, rest, Last));
      LineThen(entry, Lines(Visit(below, inner, Visit(prefix, rest, later))));
      LineThen(entry, Lines(Visit(below, inner, Visit(prefix, rest, Last))));
  }

  // The text fed to the hash so far, and the bytes counted so far.
  class TreeHasher {
    const how: Method
    var text: string
    var size: nat

    constructor (how: Method)
      ensures this.how == how && text == "nodrix.materialized-tree/v1\n" && size == 0
    {
      this.how := how;
      text := "nodrix.materialized-tree/v1\n";
      size := 0;
    }

    method HashDirectory(directory: Node, prefix: string)
      requires directory.Directory?
      modifies this
      ensures text == old(text) + Lines(Visit(prefix, ItemOf(how, directory).listing, Last))
      ensures size == old(size) + Bytes(ItemOf(how, directory).listing)
      decreases directory
    {
      hide Line;
      var names := how.order(directory.entries.Keys);
      ghost var all := Lines(Visit(prefix, ListNames(how, directory, names), Last));
      var i := 0;
      while i < |names|
        invariant i <= |names|
        invariant text + Lines(Visit(prefix, ListNames(how, directory, names[i..]), Last)) == old(text) + all
        invariant size + Bytes(ListNames(how, directory, names[i..])) == old(size) + Bytes(ListNames(how, directory, names))
      {
        ghost var rest := ListNames(how, directory, names[i + 1..]);
        ghost var later := Visit(prefix, rest, Last);
        assert names[i..][1..] == names[i + 1..];
        if names[i] in directory.entries {
          var child := directory.entries[names[i]];
          if child.Directory? {
            var entry := DirectoryEntry(prefix + names[i]);
            VisitThen(prefix + names[i] + "/", ItemOf(how, child).listing, later);
            LineThen(entry, Lines(Visit(prefix + names[i] + "/", ItemOf(how, child).listing, later)));
            text := text + Line(entry, "");
            HashDirectory(child, prefix + names[i] + "/");
          } else {
            var entry := FileEntry(prefix + names[i], how.sha256(child.content), |child.content|);
            LineThen(entry, Lines(later));
            size := size + |child.content|;
            text := text + Line(entry, "");
          }
        }
        i := i + 1;
      }
    }
  }

  datatype Info = Info(kind: Kind, digest: string, size: nat)
  datatype Kind = FileKind | DirectoryKind

  // What is remembered of a payload: its type, its digest and its size.
  function InfoOf(how: Method, node: Node): Info
  {
    match node
    case File(content) => Info(FileKind, how.sha256(content), |content|)
    case Directory(_) =>
      Info(DirectoryKind, how.sha256(DigestInput(how, node)), Bytes(ItemOf(how, node).listing))
  }

  /** Hashing a directory entry by entry gives its digest and the sum of its file sizes. */
  method TreeInfo(how: Method, root: Node) returns (info: Info)
    requires root.Directory?
    ensures info == InfoOf(how, root)
  {
    var hasher := new TreeHasher(how);
    hasher.HashDirectory(root, "");
    info := Info(DirectoryKind, how.sha256(hasher.text), hasher.size);
  }

  /** Payloads with the same type and digest are the same payload. */
  lemma InfoDeterminesPayload(how: Method, a: Node, b: Node)
    requires ListsNames(how) && CollisionFree(how) && ValidNames(a) && ValidNames(b)
    requires InfoOf(how, a).kind == InfoOf(how, b).kind && InfoOf(how, a).digest == InfoOf(how, b).digest
    ensures a == b
  {
    if a.Directory? {
      DigestDeterminesDirectory(how, a, b);
    }
  }

  /**
   The digest alone does not tell a file from a directory: they agree exactly when the file
   holds the text hashed for the directory.  The payload type then still differs.
   */
  lemma FileAgainstDirectory(how: Method, file: Node, directory: Node)
    requires CollisionFree(how) && file.File? && directory.Directory?
    ensures InfoOf(how, file).digest == InfoOf(how, directory).digest <==> file.content == DigestInput(how, directory)
    ensures InfoOf(how, file) != InfoOf(how, directory)
  {
  }

  // ---------------------------------------------------------------- what the size is

  // The sizes of some of the entries together, in whatever order.
  ghost function Total(how: Method, entries: map<string, Node>, names: set<string>): nat
    requires names <= entries.Keys
  {
    if names == {} then 0
    else
      var n :| n in names;
      InfoOf(how, entries[n]).size + Total(how, entries, names - {n})
  }

  lemma {:induction false} TotalWithout(how: Method, entries: map<string, Node>, names: set<string>, k: string)
    requires names <= entries.Keys && k in names
    ensures Total(how, entries, names) == InfoOf(how, entries[k]).size + Total(how, entries, names - {k})
    decreases names
  {
    hide InfoOf;
    var n :| n in names && Total(how, entries, names) == InfoOf(how, entries[n]).size + Total(how, entries, names - {n});
    if n != k {
      TotalWithout(how, entries, names - {n}, k);
      TotalWithout(how, entries, names - {k}, n);
      assert names - {n} - {k} == names - {k} - {n};
    }
  }

  lemma {:induction false} TotalAgrees(how: Method, a: map<string, Node>, b: map<string, Node>, names: set<string>)
    requires names <= a.Keys && names <= b.Keys && forall n :: n in names ==> a[n] == b[n]
    ensures Total(how, a, names) == Total(how, b, names)
    decreases names
  {
    hide InfoOf;
    if names != {} {
      var n :| n in names;
      TotalWithout(how, a, names, n);
      TotalWithout(how, b, names, n);
      TotalAgrees(how, a, b, names - {n});
    }
  }

  lemma {:induction false} ListedTotal(how: Method, directory: Node, names: seq<string>)
    requires directory.Directory? && Distinct(names) && Names(names) <= directory.entries.Keys
    ensures Bytes(ListNames(how, directory, names)) == Total(how, directory.entries, Names(names))
    decreases |names|
  {
    if names != [] {
      assert names[0] in Names(names) && names[0] !in names[1..];
      assert Names(names[1..]) == Names(names) - {names[0]};
      ListedTotal(how, directory, names[1..]);
      TotalWithout(how, directory.entries, Names(names), names[0]);
    }
  }

  lemma DirectorySize(how: Method, directory: Node)
    requires directory.Directory? && ListsNames(how) && forall s :: Distinct(how.order(s))
    ensures InfoOf(how, directory).size == Total(how, directory.entries, directory.entries.Keys)
  {
    ListedTotal(how, directory, how.order(directory.entries.Keys));
  }

  /**
   The size of a payload is the length of all files in it: of a file its own, of an empty directory
   none, and any entry of a directory adds its size to that of the others.
   */
  lemma SizeAddsUp(how: Method, entries: map<string, Node>, name: string)
    requires ListsNames(how) && forall s :: Distinct(how.order(s))
    ensures forall content :: InfoOf(how, File(content)).size == |content|
    ensures InfoOf(how, Directory(map[])).size == 0
    ensures name in entries ==>
              InfoOf(how, Directory(entries)).size ==
              InfoOf(how, entries[name]).size + InfoOf(how, Directory(entries - {name})).size
  {
    DirectorySize(how, Directory(map[]));
    assert Total(how, map[], {}) == 0;
    if name in entries {
      var fewer := entries - {name};
      DirectorySize(how, Directory(entries));
      DirectorySize(how, Directory(fewer));
      TotalWithout(how, entries, entries.Keys, name);
      assert fewer.Keys == entries.Keys - {name};
      TotalAgrees(how, entries, fewer, fewer.Keys);
    }
  }

  // A directory d with a file f beside a file g.
  const Example := Directory(map["d" := Directory(map["f" := File("one")]), "g" := File("")])

  /** The text that is hashed for it, letter by letter, and what is recorded of it. */
  lemma ExampleText(how: Method)
    requires how.order({"d", "g"}) == ["d", "g"] && how.order({"f"}) == ["f"]
    requires how.sha256("one") == "ab" && how.sha256("") == "e3"
    ensures DigestInput(how, Example) ==
            "nodrix.materialized-tree/v1\n" +
            ("{\"path\":\"" + "d" + "\",\"type\":\"directory\"}\n") +
            ("{\"path\":\"" + "d/f" + "\",\"sha256\":\"" + "ab" + "\",\"size_bytes\":" + "3" + ",\"type\":\"file\"}\n") +
            ("{\"path\":\"" + "g" + "\",\"sha256\":\"" + "e3" + "\",\"size_bytes\":" + "0" + ",\"type\":\"file\"}\n")
    ensures InfoOf(how, Example) == Info(DirectoryKind, how.sha256(DigestInput(how, Example)), 3)
  {
    var f, g := FileEntry("d/f", "ab", 3), FileEntry("g", "e3", 0);
    ExampleListing(how);
    assert Bytes(ExampleItems) == 3;
    hide Visit, Lines, Bytes, ItemOf, ExampleItems;
    ExampleVisit(f, g);
    ExampleLines(f, g);
  }

  const ExampleItems := Listed("d", DirectoryItem(Listed("f", FileItem("ab", 3), Nothing)), Listed("g", FileItem("e3", 0), Nothing))

  lemma ExampleListing(how: Method)
    requires how.order({"d", "g"}) == ["d", "g"] && how.order({"f"}) == ["f"]
    requires how.sha256("one") == "ab" && how.sha256("") == "e3"
    ensures ItemOf(how, Example) == DirectoryItem(ExampleItems)
  {
    var inner := Directory(map["f" := File("one")]);
    assert Example.entries.Keys == {"d", "g"} && inner.entries.Keys == {"f"};
    assert ["d", "g"][1..] == ["g"] && ["g"][1..] == [] && ["f"][1..] == [];
    assert ItemOf(how, inner) == DirectoryItem(Listed("f", FileItem("ab", 3), Nothing));
  }

  lemma ExampleVisit(f: Entry, g: Entry)
    requires f == FileEntry("d/f", "ab", 3) && g == FileEntry("g", "e3", 0)
    ensures Visit("", ExampleItems, Last) == More(DirectoryEntry("d"), More(f, More(g, Last)))
  {
    assert "" + "d" == "d" && "" + "d" + "/" == "d/" && "d/" + "f" == "d/f" && "" + "g" == "g";
  }

  lemma ExampleLines(f: Entry, g: Entry)
    requires f == FileEntry("d/f", "ab", 3) && g == FileEntry("g", "e3", 0)
    ensures Lines(More(DirectoryEntry("d"), More(f, More(g, Last)))) ==
            ("{\"path\":\"" + "d" + "\",\"type\":\"directory\"}\n") +
            ("{\"path\":\"" + "d/f" + "\",\"sha256\":\"" + "ab" + "\",\"size_bytes\":" + "3" + ",\"type\":\"file\"}\n") +
            ("{\"path\":\"" + "g" + "\",\"sha256\":\"" + "e3" + "\",\"size_bytes\":" + "0" + ",\"type\":\"file\"}\n")
  {
    hide Line;
    var d := DirectoryEntry("d");
    LineThen(d, Lines(More(f, More(g, Last))));
    LineThen(f, Lines(More(g, Last)));
    LineThen(g, "");
    PlainLines();
    assert Lines(More(g, Last)) == Line(g, "");
    assert Lines(More(f, More(g, Last))) == Line(f, "") + Line(g, "");
  }

  lemma PlainLines()
    ensures Line(DirectoryEntry("d"), "") == ("{\"path\":\"" + "d" + "\",\"type\":\"directory\"}\n")
    ensures Line(FileEntry("d/f", "ab", 3), "") ==
            ("{\"path\":\"" + "d/f" + "\",\"sha256\":\"" + "ab" + "\",\"size_bytes\":" + "3" + ",\"type\":\"file\"}\n")
    ensures Line(FileEntry("g", "e3", 0), "") ==
            ("{\"path\":\"" + "g" + "\",\"sha256\":\"" + "e3" + "\",\"size_bytes\":" + "0" + ",\"type\":\"file\"}\n")
  {
    assert Decimal(3) == "3" && Decimal(0) == "0";
    PlainDirectoryLine("d");
    PlainFileLine("d/f", "ab", 3);
    PlainFileLine("g", "e3", 0);
    hide Line, Decimal;
  }

  // Nothing in the text is escaped.
  predicate Plain(text: string)
  {
    forall i :: 0 <= i < |text| ==> EscapeChar(text[i]) == [text[i]]
  }

  lemma PlainDirectoryLine(path: string)
    requires Plain(path)
    ensures Line(DirectoryEntry(path), "") == "{\"path\":\"" + path + "\",\"type\":\"directory\"}\n"
  {
    var end := ",\"type\":\"directory\"}\n";
    PlainQuoted(path, end);
    hide Plain, Quoted;
    assert end + "" == end;
    assert "\"" + end == "\",\"type\":\"directory\"}\n";
    assert path + "\"" + end == path + ("\"" + end);
  }

  lemma PlainFileLine(path: string, sha256: string, size: nat)
    requires Plain(path) && Plain(sha256)
    ensures Line(FileEntry(path, sha256, size), "") ==
            "{\"path\":\"" + path + "\",\"sha256\":\"" + sha256 + "\",\"size_bytes\":" + Decimal(size) + ",\"type\":\"file\"}\n"
  {
    var end, k, s := ",\"type\":\"file\"}\n", ",\"size_bytes\":", ",\"sha256\":\"";
    var d := Decimal(size);
    PlainQuoted(sha256, k + (d + (end + "")));
    PlainQuoted(path, s + Quoted(sha256, k + (d + (end + ""))));
    hide Plain, Quoted, Decimal;
    AfterQuote();
    Splice("{\"path\":\"", path, "\"", s, sha256, k, d, end);
  }

  // The pieces of a line, however they are put together.
  lemma Splice(open: string, path: string, quote: string, s: string, sha256: string, k: string, d: string, end: string)
    ensures open + (path + quote + (s + (sha256 + quote + (k + (d + (end + ""))))))
            == open + path + (quote + s) + sha256 + (quote + k) + d + end
  {
    assert end + "" == end;
  }

  lemma AfterQuote()
    ensures "\"" + ",\"size_bytes\":" == "\",\"size_bytes\":"
    ensures "\"" + ",\"sha256\":\"" == "\",\"sha256\":\""
  {
  }

  // Letters, digits and slashes are not escaped.
  lemma {:induction false} PlainQuoted(text: string, rest: string)
    requires Plain(text)
    ensures Quoted(text, rest) == text + "\"" + rest
  {
    hide EscapeChar;
    if text == [] {
      assert text + "\"" + rest == "\"" + rest;
    } else {
      var head, tail := text[0], text[1..];
      assert EscapeChar(text[0]) == [head];
      PlainQuoted(tail, rest);
      assert text == [head] + tail;
      Prepended(head, tail, "\"", rest);
    }
  }

  lemma Prepended(head: char, tail: string, quote: string, rest: string)
    ensures [head] + (tail + quote + rest) == [head] + tail + quote + rest
  {
  }
}
