/** Recomputing a Git tree id from an archive: members fold into a trie, the trie hashes bottom-up.

The nested dictionaries the source fills in place are values here.
*/
module GitTree {
  import opened Basics
  import opened Paging
  import opened ByteStrings

  type Name = Bytes
  type Path = seq<Name>

  datatype Mode = Executable | Regular | Symlink

  /** A directory by its entries, or a file or symlink by its mode and blob id. */
  datatype Node =
    | Directory(entries: map<Name, Node>)
    | Leaf(mode: Mode, blob: Bytes)

  // ------------------------------------------------------------ what stands at a path

  datatype Kind = Missing | IsDirectory | IsLeaf(mode: Mode, blob: Bytes)

  function KindAt(node: Node, path: Path): Kind
    decreases |path|
  {
    if path == [] then (if node.Directory? then IsDirectory else IsLeaf(node.mode, node.blob))
    else if node.Leaf? || path[0] !in node.entries then Missing
    else KindAt(node.entries[path[0]], path[1..])
  }

  lemma KindBelow(node: Node, name: Name, path: Path)
    requires node.Directory?
    ensures KindAt(node, [name] + path) == if name in node.entries then KindAt(node.entries[name], path) else Missing
    ensures name in node.entries ==> KindAt(node, [name]) != Missing
  {
    assert ([name] + path)[1..] == path && [name][1..] == [];
  }

  ghost predicate SameShape(a: Node, b: Node) {
    forall path :: KindAt(a, path) == KindAt(b, path)
  }

  /** A trie is nothing but what stands at its paths. */
  lemma {:induction false} SameKindsSameTrie(a: Node, b: Node)
    requires SameShape(a, b)
    ensures a == b
    decreases a
  {
    assert KindAt(a, []) == KindAt(b, []);
    if a.Directory? {
      forall name
        ensures name in a.entries <==> name in b.entries
        ensures name in a.entries && name in b.entries ==> a.entries[name] == b.entries[name]
      {
        KindBelow(a, name, []);
        KindBelow(b, name, []);
        assert KindAt(a, [name]) == KindAt(b, [name]);
        if name in a.entries {
          forall path ensures KindAt(a.entries[name], path) == KindAt(b.entries[name], path) {
            KindBelow(a, name, path);
            KindBelow(b, name, path);
          }
          assert SameShape(a.entries[name], b.entries[name]);
          SameKindsSameTrie(a.entries[name], b.entries[name]);
        }
      }
      assert a.entries == b.entries;
    }
  }

  // ------------------------------------------------------------ placing one member

  datatype Item = NewDirectory | NewLeaf(mode: Mode, blob: Bytes)

  /** Walks to the parent, making directories on the way, and adds the item there; refuses to walk through a
      file, to put a directory where a file is, or a file where anything is. */
  function Place(node: Node, path: Path, item: Item): (placed: Option<Node>)
    requires node.Directory?
    ensures placed.Some? ==> placed.value.Directory?
    decreases |path|
  {
    if path == [] then (if item.NewDirectory? then Some(node) else None)
    else
      var name := path[0];
      if name !in node.entries && |path| == 1 && item.NewLeaf? then
        Some(Directory(node.entries[name := Leaf(item.mode, item.blob)]))
      else
        var child := ChildOf(node, name);
        if child.Leaf? then None
        else
          var placed := Place(child, path[1..], item);
          if placed.None? then None else Some(Directory(node.entries[name := placed.value]))
  }

  /** Nothing stands in the way. */
  ghost predicate Clear(node: Node, path: Path, item: Item) {
    && (forall above :: above < path ==> !KindAt(node, above).IsLeaf?)
    && (if item.NewDirectory? then !KindAt(node, path).IsLeaf? else KindAt(node, path).Missing?)
  }

  function KindAfter(node: Node, path: Path, item: Item, at: Path): Kind {
    if at < path then IsDirectory
    else if at == path then (if item.NewDirectory? then IsDirectory else IsLeaf(item.mode, item.blob))
    else KindAt(node, at)
  }

  function ChildOf(node: Node, name: Name): Node
    requires node.Directory?
  {
    if name in node.entries then node.entries[name] else Directory(map[])
  }

  lemma PrefixSteps(at: Path, path: Path)
    requires path != []
    ensures at < path <==> at == [] || (at[0] == path[0] && at[1..] < path[1..])
  {
    if at != [] && at[0] == path[0] && at[1..] < path[1..] {
      assert at == [at[0]] + at[1..] && path == [path[0]] + path[1..];
    }
  }

  lemma ClearSteps(node: Node, path: Path, item: Item)
    requires node.Directory? && path != []
    ensures Clear(node, path, item) <==>
            || (path[0] !in node.entries && |path| == 1 && item.NewLeaf?)
            || (ChildOf(node, path[0]).Directory? && Clear(ChildOf(node, path[0]), path[1..], item))
  {
    var name, rest := path[0], path[1..];
    var child := ChildOf(node, name);
    assert path == [name] + rest;
    KindBelow(node, name, rest);
    KindBelow(node, name, []);
    assert KindAt(child, []) == if child.Directory? then IsDirectory else IsLeaf(child.mode, child.blob);
    if Clear(node, path, item) {
      forall above | above < rest ensures !KindAt(child, above).IsLeaf? {
        KindBelow(node, name, above);
        assert [name] + above < path;
      }
      if rest != [] {
        assert [name] < path;
      }
    } else if child.Directory? && Clear(child, rest, item) {
      forall above | above < path ensures !KindAt(node, above).IsLeaf? {
        PrefixSteps(above, path);
        if above != [] {
          assert above == [name] + above[1..];
          KindBelow(node, name, above[1..]);
        }
      }
    }
  }

  lemma PlacedKind(node: Node, path: Path, item: Item, at: Path)
    requires node.Directory? && path != [] && Place(node, path, item).Some?
    requires ChildOf(node, path[0]).Directory? && Place(ChildOf(node, path[0]), path[1..], item).Some? ==>
               forall below :: KindAt(Place(ChildOf(node, path[0]), path[1..], item).value, below)
                            == KindAfter(ChildOf(node, path[0]), path[1..], item, below)
    ensures KindAt(Place(node, path, item).value, at) == KindAfter(node, path, item, at)
  {
    var placed := Place(node, path, item).value;
    PrefixSteps(at, path);
    if at != [] {
      assert at == [at[0]] + at[1..] && path == [path[0]] + path[1..];
      KindBelow(placed, at[0], at[1..]);
      KindBelow(node, at[0], at[1..]);
    }
  }

  /** Placing succeeds exactly when the way is clear, and then changes the item's path and its ancestors only. */
  lemma {:induction false} PlaceDescribes(node: Node, path: Path, item: Item)
    requires node.Directory?
    ensures Place(node, path, item).Some? <==> Clear(node, path, item)
    ensures Place(node, path, item).Some? ==> forall at :: KindAt(Place(node, path, item).value, at) == KindAfter(node, path, item, at)
    decreases |path|
  {
    if path == [] {
      assert KindAt(node, path) == IsDirectory;
    } else {
      ClearSteps(node, path, item);
      if ChildOf(node, path[0]).Directory? {
        PlaceDescribes(ChildOf(node, path[0]), path[1..], item);
      }
      if Place(node, path, item).Some? {
        forall at ensures KindAt(Place(node, path, item).value, at) == KindAfter(node, path, item, at) {
          PlacedKind(node, path, item, at);
        }
      }
    }
  }

  // ------------------------------------------------------------ folding a whole archive

  datatype Placement = Placement(path: Path, item: Item)

  function Fold(placements: seq<Placement>): (trie: Option<Node>)
    ensures trie.Some? ==> trie.value.Directory?
  {
    if placements == [] then Some(Directory(map[]))
    else
      var front, last := Fold(placements[..|placements| - 1]), placements[|placements| - 1];
      if front.None? then None else Place(front.value, last.path, last.item)
  }

  /** A file stands at or above the other's path. */
  predicate Blocks(a: Placement, b: Placement) {
    a.item.NewLeaf? && a.path <= b.path
  }

  predicate Compatible(a: Placement, b: Placement) {
    !Blocks(a, b) && !Blocks(b, a)
  }

  /** No two members are in each other's way; no file sits on the root. */
  ghost predicate Consistent(bag: multiset<Placement>) {
    && (forall p :: p in bag && p.item.NewLeaf? ==> p.path != [])
    && (forall a, b :: a in bag && b in bag && (a != b || bag[a] > 1) ==> Compatible(a, b))
  }

  /** The trie holds every member, every directory some member implies or declares, and nothing else. */
  ghost predicate Describes(bag: multiset<Placement>, node: Node) {
    && node.Directory?
    && (forall p :: p in bag && p.item.NewLeaf? ==> KindAt(node, p.path) == IsLeaf(p.item.mode, p.item.blob))
    && (forall p, at :: p in bag && at <= p.path && (at != p.path || p.item.NewDirectory?) ==> KindAt(node, at) == IsDirectory)
    && (forall at :: at != [] && (forall p :: p in bag ==> !(at <= p.path)) ==> KindAt(node, at) == Missing)
  }

  /** At most one trie fits a collection of members. */
  lemma DescriptionIsUnique(bag: multiset<Placement>, a: Node, b: Node)
    requires Describes(bag, a) && Describes(bag, b)
    ensures a == b
  {
    forall path ensures KindAt(a, path) == KindAt(b, path) {
      if path != [] && exists p :: p in bag && path <= p.path {
        var p :| p in bag && path <= p.path;
        if path == p.path && p.item.NewLeaf? {
          assert KindAt(a, p.path) == KindAt(b, p.path);
        }
      }
    }
    SameKindsSameTrie(a, b);
  }

  lemma ConsistentStep(bag: multiset<Placement>, p: Placement)
    ensures Consistent(bag + multiset{p}) <==>
            && Consistent(bag) && (p.item.NewLeaf? ==> p.path != [])
            && forall a :: a in bag ==> Compatible(a, p)
  {
    var more := bag + multiset{p};
    if Consistent(more) {
      forall a, b | a in bag && b in bag && (a != b || bag[a] > 1) ensures Compatible(a, b) {
        assert a in more && b in more && more[a] >= bag[a];
      }
      forall a | a in bag ensures Compatible(a, p) {
        assert a in more && p in more && (a != p || more[a] > 1);
      }
    }
    if Consistent(bag) && (p.item.NewLeaf? ==> p.path != []) && forall a :: a in bag ==> Compatible(a, p) {
      forall a, b | a in more && b in more && (a != b || more[a] > 1) ensures Compatible(a, b) {
        if a == p && b == p {
          assert p in bag;
        }
      }
    }
  }

  /** The way for the next member is clear exactly when it fits with each earlier one. */
  lemma ClearIffCompatible(bag: multiset<Placement>, node: Node, p: Placement)
    requires Describes(bag, node)
    ensures Clear(node, p.path, p.item) <==>
            (p.item.NewLeaf? ==> p.path != []) && forall a :: a in bag ==> Compatible(a, p)
  {
    if Clear(node, p.path, p.item) {
      forall a | a in bag ensures Compatible(a, p) {
        assert a.path <= p.path ==> a.path == p.path || a.path < p.path;
        assert a.item.NewLeaf? ==> KindAt(node, a.path).IsLeaf?;
        assert p.path <= a.path ==> KindAt(node, p.path) != Missing;
      }
    } else if (p.item.NewLeaf? ==> p.path != []) && forall a :: a in bag ==> Compatible(a, p) {
      forall above | above <= p.path ensures !KindAt(node, above).IsLeaf? {
        if above != [] && exists a :: a in bag && above <= a.path {
          var a :| a in bag && above <= a.path;
          assert !Blocks(a, p);
        }
      }
    }
  }

  lemma DescribesStep(bag: multiset<Placement>, node: Node, p: Placement, after: Node)
    requires Describes(bag, node) && after.Directory?
    requires forall a :: a in bag ==> Compatible(a, p)
    requires p.item.NewLeaf? ==> p.path != []
    requires forall at :: KindAt(after, at) == KindAfter(node, p.path, p.item, at)
    ensures Describes(bag + multiset{p}, after)
  {
    var more := bag + multiset{p};
    forall q | q in more && q.item.NewLeaf? ensures KindAt(after, q.path) == IsLeaf(q.item.mode, q.item.blob) {
      if q != p {
        assert Compatible(q, p);
      }
    }
    forall q, at | q in more && at <= q.path && (at != q.path || q.item.NewDirectory?) ensures KindAt(after, at) == IsDirectory {
      if q != p {
        assert KindAt(node, at) == IsDirectory && Compatible(q, p);
      }
    }
    forall at | at != [] && forall q :: q in more ==> !(at <= q.path) ensures KindAt(after, at) == Missing {
      assert p in more;
    }
  }

  /** The fold accepts exactly the consistent collections and builds the one trie that describes them. */
  lemma {:induction false} FoldDescribes(placements: seq<Placement>)
    ensures Fold(placements).Some? <==> Consistent(multiset(placements))
    ensures Fold(placements).Some? ==> Describes(multiset(placements), Fold(placements).value)
  {
    if placements != [] {
      var front, last := placements[..|placements| - 1], placements[|placements| - 1];
      assert placements == front + [last];
      assert multiset(placements) == multiset(front) + multiset{last};
      FoldDescribes(front);
      ConsistentStep(multiset(front), last);
      if Fold(front).Some? {
        var node := Fold(front).value;
        ClearIffCompatible(multiset(front), node, last);
        PlaceDescribes(node, last.path, last.item);
        if Place(node, last.path, last.item).Some? {
          DescribesStep(multiset(front), node, last, Place(node, last.path, last.item).value);
        }
      }
    }
  }

  // ------------------------------------------------------------ archive members

  const BLOB: Bytes := [98, 108, 111, 98]
  const TREE: Bytes := [116, 114, 101, 101]
  const MAXIMUM_ARCHIVE: nat := 512 * 1024 * 1024

  type Hash = Bytes -> Bytes

  function ObjectPreimage(kind: Bytes, payload: Bytes): Bytes {
    kind + [SPACE] + Decimal(|payload|) + [NUL] + payload
  }

  function ObjectId(hash: Hash, kind: Bytes, payload: Bytes): Bytes {
    hash(ObjectPreimage(kind, payload))
  }

  datatype Body =
    | DirectoryBody
    | FileBody(size: int, content: Option<Bytes>, mode: bv32)
    | SymlinkBody(target: Bytes)
    | OtherBody

  datatype Member = Member(name: Bytes, body: Body)

  /** The components of a pure POSIX path: separators run together and "." components vanish. */
  function Components(name: Bytes): Path {
    Meaningful(Split(name, SLASH))
  }

  /** What an archive has at a path. */
  datatype Held = Nothing | ADirectory | AFile(mode: Mode, payload: Bytes)

  /** What one member brings, if it is readable. */
  function Offer(body: Body): Held {
    match body
    case DirectoryBody => ADirectory
    case FileBody(size, content, mode) =>
      if size < 0 || content.None? || |content.value| != size then Nothing
      else AFile(if mode & 0x49 != 0 then Executable else Regular, content.value)
    case SymlinkBody(target) => if NUL in target then Nothing else AFile(Symlink, target)
    case OtherBody => Nothing
  }

  /** Files and symlinks are kept by the id of their payload. */
  function ItemOf(hash: Hash, offer: Held): Item
    requires offer != Nothing
  {
    if offer.ADirectory? then NewDirectory else NewLeaf(offer.mode, ObjectId(hash, BLOB, offer.payload))
  }

  /** What members offer: a directory; a readable regular file with its bytes, executable if any execute bit is set,
      whoever's it is; a symlink with its target.  Anything else, a short read or a NUL in a target is refused. */
  lemma OffersAre(body: Body)
    ensures match body
            case DirectoryBody => Offer(body) == ADirectory
            case FileBody(size, content, mode) =>
              if content == None then Offer(body) == Nothing
              else if size != |content.value| then Offer(body) == Nothing
              else
                && Offer(body).AFile? && Offer(body).payload == content.value && Offer(body).mode != Symlink
                && (Offer(body).mode == Executable <==> mode & 0x40 != 0 || mode & 0x8 != 0 || mode & 0x1 != 0)
            case SymlinkBody(target) => Offer(body) == if 0 in target then Nothing else AFile(Symlink, target)
            case OtherBody => Offer(body) == Nothing
  {
    if body.FileBody? {
      ExecuteBits(body.mode);
    }
  }

  /** A file or symlink is kept by the id Git gives its bytes. */
  lemma BlobsAreGits(hash: Hash, offer: Held)
    requires offer.AFile?
    ensures ItemOf(hash, offer) == NewLeaf(offer.mode, hash(Ascii("blob ") + Decimal(|offer.payload|) + [0] + offer.payload))
  {
    HeadersAreGits(offer.payload);
    hide Decimal, Ascii, ObjectPreimage;
  }

  lemma ExecuteBits(mode: bv32)
    ensures mode & 0x49 != 0 <==> mode & 0x40 != 0 || mode & 0x8 != 0 || mode & 0x1 != 0
  {
  }

  function Payload(member: Member): int {
    if member.body.FileBody? then member.body.size else 0
  }

  /** Where a member goes below the prefix, if its name is sound; only a directory may be the prefix itself. */
  function Located(prefix: Name, member: Member): (at: Option<Path>)
    ensures at == Some([]) ==> member.body.DirectoryBody?
  {
    var name := if member.name != [] && member.name[|member.name| - 1] == SLASH then member.name[..|member.name| - 1] else member.name;
    var parts := Components(name);
    if (name != [] && name[0] == SLASH) || parts == [] || [DOT, DOT] in parts || parts[0] != prefix then None
    else if |parts| == 1 then (if member.body.DirectoryBody? then Some([]) else None)
    else if exists part :: part in parts[1..] && NUL in part then None
    else Some(parts[1..])
  }

  /** A name and the same name without one final slash. */
  ghost predicate IsTrimmed(name: Bytes, trimmed: Bytes) {
    name == trimmed + [SLASH] || (name == trimmed && (trimmed == [] || trimmed[|trimmed| - 1] != SLASH))
  }

  /** A member goes to a path exactly when its name, trimmed, is relative, its components are the prefix and that path,
      none of them climbs and none below the prefix holds a NUL; and only a directory goes to the prefix itself. */
  lemma LocatedIff(prefix: Name, member: Member, trimmed: Bytes, path: Path)
    requires IsTrimmed(member.name, trimmed)
    ensures Located(prefix, member) == Some(path) <==>
            && (trimmed == [] || trimmed[0] != SLASH)
            && Meaningful(Split(trimmed, SLASH)) == [prefix] + path
            && (forall part :: part in [prefix] + path ==> part != Ascii(".."))
            && (forall part :: part in path ==> 0 !in part)
            && (path == [] ==> member.body.DirectoryBody?)
  {
    assert Ascii("..") == [DOT, DOT];
    hide Split, Meaningful, Ascii;
    var parts := Components(trimmed);
    if parts != [] && parts[0] == prefix {
      assert parts == [prefix] + parts[1..];
      assert path == parts[1..] <==> [prefix] + path == parts;
    }
  }

  /** What one member asks for, by itself; `None` where it is refused whatever came before it. */
  function Parse(hash: Hash, prefix: Name, member: Member): (placement: Option<Placement>)
    ensures placement.Some? && placement.value.item.NewLeaf? ==> placement.value.path != []
    ensures placement.Some? ==> Payload(member) >= 0
  {
    var at := Located(prefix, member);
    if at.None? || Offer(member.body).Nothing? then None
    else Some(Placement(at.value, ItemOf(hash, Offer(member.body))))
  }

  function TotalPayload(members: seq<Member>): int {
    if members == [] then 0 else Payload(members[|members| - 1]) + TotalPayload(members[..|members| - 1])
  }

  function Placements(hash: Hash, prefix: Name, members: seq<Member>): (placements: seq<Placement>)
    requires forall m :: m in members ==> Parse(hash, prefix, m).Some?
    ensures |placements| == |members|
    ensures forall i :: 0 <= i < |members| ==> placements[i] == Parse(hash, prefix, members[i]).value
  {
    if members == [] then []
    else Placements(hash, prefix, members[..|members| - 1]) + [Parse(hash, prefix, members[|members| - 1]).value]
  }

  /** When an archive is accepted, said without an order: each member is sound, together they fit the container and
      each other, and something is left below the prefix. */
  ghost predicate Accepted(hash: Hash, prefix: Name, members: seq<Member>, archiveLength: nat) {
    && 0 < archiveLength <= MAXIMUM_ARCHIVE
    && (forall m :: m in members ==> Parse(hash, prefix, m).Some?)
    && TotalPayload(members) <= archiveLength
    && Consistent(multiset(Placements(hash, prefix, members)))
    && (exists m :: m in members && Parse(hash, prefix, m).value.path != [])
  }

  /** The bytes an archive's regular files hold together. */
  ghost function FileBytes(members: seq<Member>): nat {
    if members == [] then 0
    else
      FileBytes(members[..|members| - 1]) +
      match members[|members| - 1].body
      case FileBody(_, Some(content), _) => |content|
      case _ => 0
  }

  lemma {:induction false} PayloadsAreBytes(hash: Hash, prefix: Name, members: seq<Member>)
    requires forall m :: m in members ==> Parse(hash, prefix, m).Some?
    ensures TotalPayload(members) == FileBytes(members)
  {
    if members != [] {
      var last := members[|members| - 1];
      PayloadsAreBytes(hash, prefix, members[..|members| - 1]);
      assert last in members;
      OffersAre(last.body);
      hide Located;
    }
  }

  lemma Twice(ps: seq<Placement>, i: nat, j: nat)
    requires i < j < |ps| && ps[i] == ps[j]
    ensures multiset(ps)[ps[i]] > 1
  {
    assert ps == ps[..j] + ps[j..] && ps[i] in ps[..j] && ps[j] in ps[j..];
    assert multiset(ps) == multiset(ps[..j]) + multiset(ps[j..]);
  }

  lemma {:induction false} TwoPlaces(ps: seq<Placement>, p: Placement) returns (i: nat, j: nat)
    requires multiset(ps)[p] > 1
    ensures i < j < |ps| && ps[i] == p && ps[j] == p
  {
    var last := |ps| - 1;
    assert ps == ps[..last] + [ps[last]];
    if ps[last] == p {
      assert p in multiset(ps[..last]);
      i :| i < last && ps[..last][i] == p;
      j := last;
    } else {
      i, j := TwoPlaces(ps[..last], p);
    }
  }

  lemma ConsistentByPlace(ps: seq<Placement>)
    ensures Consistent(multiset(ps)) <==>
            && (forall i :: 0 <= i < |ps| && ps[i].item.NewLeaf? ==> ps[i].path != [])
            && (forall i, j :: 0 <= i < |ps| && 0 <= j < |ps| && i != j ==> !Blocks(ps[i], ps[j]))
  {
    var bag := multiset(ps);
    if Consistent(bag) {
      forall i, j | 0 <= i < |ps| && 0 <= j < |ps| && i != j ensures !Blocks(ps[i], ps[j]) {
        if ps[i] == ps[j] {
          Twice(ps, if i < j then i else j, if i < j then j else i);
        }
        assert ps[i] in bag && ps[j] in bag && Compatible(ps[i], ps[j]);
      }
    } else if && (forall i :: 0 <= i < |ps| && ps[i].item.NewLeaf? ==> ps[i].path != [])
              && (forall i, j :: 0 <= i < |ps| && 0 <= j < |ps| && i != j ==> !Blocks(ps[i], ps[j]))
    {
      forall a, b | a in bag && b in bag && (a != b || bag[a] > 1) ensures Compatible(a, b) {
        if a == b {
          var i, j := TwoPlaces(ps, a);
        } else {
          var i :| 0 <= i < |ps| && ps[i] == a;
          var j :| 0 <= j < |ps| && ps[j] == b;
        }
      }
    }
  }

  ghost predicate Readable(prefix: Name, members: seq<Member>) {
    forall m :: m in members ==> Located(prefix, m).Some? && Offer(m.body) != Nothing
  }

  /** No file stands at or above the path of another member. */
  ghost predicate FilesStandAlone(prefix: Name, members: seq<Member>)
    requires Readable(prefix, members)
  {
    forall i, j :: 0 <= i < |members| && 0 <= j < |members| && i != j && Offer(members[i].body).AFile? ==>
      !(Located(prefix, members[i]).value <= Located(prefix, members[j]).value)
  }

  lemma PlacedAsOffered(hash: Hash, prefix: Name, members: seq<Member>)
    requires Readable(prefix, members)
    ensures forall m :: m in members ==> Parse(hash, prefix, m).Some?
    ensures forall i :: 0 <= i < |members| ==>
              var p := Placements(hash, prefix, members)[i];
              && Located(prefix, members[i]) == Some(p.path) && (p.item.NewLeaf? <==> Offer(members[i].body).AFile?)
              && (p.item.NewLeaf? ==> p.path != [])
    ensures forall m :: m in members ==> Located(prefix, m) == Some(Parse(hash, prefix, m).value.path)
  {
    forall i | 0 <= i < |members|
      ensures var p := Placements(hash, prefix, members)[i];
              && Located(prefix, members[i]) == Some(p.path) && (p.item.NewLeaf? <==> Offer(members[i].body).AFile?)
              && (p.item.NewLeaf? ==> p.path != [])
    {
      assert members[i] in members;
    }
    hide Located, Offer;
  }

  lemma FittingIsConsistent(hash: Hash, prefix: Name, members: seq<Member>)
    requires Readable(prefix, members) && forall m :: m in members ==> Parse(hash, prefix, m).Some?
    ensures Consistent(multiset(Placements(hash, prefix, members))) <==> FilesStandAlone(prefix, members)
  {
    PlacedAsOffered(hash, prefix, members);
    var ps := Placements(hash, prefix, members);
    ConsistentByPlace(ps);
    hide Parse, Located, Offer, Consistent, Placements;
    if FilesStandAlone(prefix, members) {
      forall i, j | 0 <= i < |ps| && 0 <= j < |ps| && i != j ensures !Blocks(ps[i], ps[j]) {
      }
    } else {
      var i, j :| && 0 <= i < |members| && 0 <= j < |members| && i != j && Offer(members[i].body).AFile?
                  && Located(prefix, members[i]).value <= Located(prefix, members[j]).value;
      assert Blocks(ps[i], ps[j]);
    }
  }

  /** An archive of up to 512 MiB is accepted exactly when every member is readable and goes somewhere, its files hold no
      more bytes than the archive, no file stands at or above another member's path, and something is below the prefix. */
  lemma AcceptedIff(hash: Hash, prefix: Name, members: seq<Member>, archiveLength: nat)
    ensures Accepted(hash, prefix, members, archiveLength) <==>
            && 0 < archiveLength <= 536870912
            && Readable(prefix, members)
            && FileBytes(members) <= archiveLength
            && FilesStandAlone(prefix, members)
            && (exists m :: m in members && Located(prefix, m).value != [])
  {
    if Readable(prefix, members) {
      PlacedAsOffered(hash, prefix, members);
      PayloadsAreBytes(hash, prefix, members);
      FittingIsConsistent(hash, prefix, members);
    } else {
      var m :| m in members && !(Located(prefix, m).Some? && Offer(m.body) != Nothing);
      assert Parse(hash, prefix, m).None?;
    }
    hide Parse, Located, Offer, Consistent, TotalPayload, FileBytes, FilesStandAlone, Placements;
  }

  lemma EmptyRoot(placements: seq<Placement>, node: Node)
    requires Describes(multiset(placements), node)
    ensures node.entries == map[] <==> forall p :: p in placements ==> p.path == []
  {
    if node.entries != map[] {
      var name :| name in node.entries;
      KindBelow(node, name, []);
      assert exists p :: p in multiset(placements) && [name] <= p.path;
    }
    if exists p :: p in placements && p.path != [] {
      var p :| p in placements && p.path != [];
      assert p in multiset(placements) && p.path == [p.path[0]] + p.path[1..];
      KindBelow(node, p.path[0], p.path[1..]);
      assert p.path[0] in node.entries;
    }
  }

  lemma {:induction false} TotalGrows(members: seq<Member>, n: nat)
    requires n <= |members| && forall m :: m in members ==> Payload(m) >= 0
    ensures TotalPayload(members[..n]) <= TotalPayload(members)
    decreases |members| - n
  {
    if n == |members| {
      assert members[..n] == members;
    } else {
      TotalGrows(members, n + 1);
      assert members[..n + 1][..n] == members[..n] && members[n] in members;
    }
  }

  lemma {:induction false} FoldPrefix(placements: seq<Placement>, n: nat)
    requires n <= |placements| && Fold(placements).Some?
    ensures Fold(placements[..n]).Some?
    decreases |placements| - n
  {
    if n == |placements| {
      assert placements[..n] == placements;
    } else {
      FoldPrefix(placements, n + 1);
      assert placements[..n + 1][..n] == placements[..n];
    }
  }

  lemma PlacementsPrefix(hash: Hash, prefix: Name, members: seq<Member>, n: nat)
    requires n <= |members| && forall m :: m in members ==> Parse(hash, prefix, m).Some?
    ensures Placements(hash, prefix, members)[..n] == Placements(hash, prefix, members[..n])
  {
    hide Parse, Placements;
    var all, some := Placements(hash, prefix, members), Placements(hash, prefix, members[..n]);
    forall i | 0 <= i < n ensures all[i] == some[i] {
      assert members[..n][i] == members[i];
    }
  }

  /** A pass that stops early was right to: what was too much for a prefix is too much for the whole. */
  lemma StopsEarly(hash: Hash, prefix: Name, members: seq<Member>, archiveLength: nat, n: nat)
    requires n <= |members| && Accepted(hash, prefix, members, archiveLength)
    ensures TotalPayload(members[..n]) <= archiveLength
    ensures Fold(Placements(hash, prefix, members[..n])).Some?
  {
    hide Parse, Describes, Consistent, Fold, TotalPayload, Placements;
    TotalGrows(members, n);
    var all := Placements(hash, prefix, members);
    FoldDescribes(all);
    FoldPrefix(all, n);
    PlacementsPrefix(hash, prefix, members, n);
  }

  lemma NoMembers(hash: Hash, prefix: Name)
    ensures TotalPayload([]) == 0 && Fold(Placements(hash, prefix, [])) == Some(Directory(map[]))
  {
  }

  lemma NextMember(hash: Hash, prefix: Name, members: seq<Member>, i: nat)
    requires i < |members| && forall m :: m in members[..i + 1] ==> Parse(hash, prefix, m).Some?
    ensures forall m :: m in members[..i] ==> Parse(hash, prefix, m).Some?
    ensures TotalPayload(members[..i + 1]) == TotalPayload(members[..i]) + Payload(members[i])
    ensures var front, parsed := Fold(Placements(hash, prefix, members[..i])), Parse(hash, prefix, members[i]).value;
            Fold(Placements(hash, prefix, members[..i + 1])) ==
              if front.None? then None else Place(front.value, parsed.path, parsed.item)
  {
    hide Parse, Place;
    var more := members[..i + 1];
    assert more[..i] == members[..i] && more[i] == members[i];
    forall m | m in members[..i] ensures Parse(hash, prefix, m).Some? {
      assert m in more;
    }
    var placements := Placements(hash, prefix, more);
    assert placements[..i] == Placements(hash, prefix, members[..i]);
    assert placements[i] == Parse(hash, prefix, members[i]).value;
  }

  /** The archive loop: one pass, one trie, one running payload total. */
  method CandidateArchiveTrie(hash: Hash, prefix: Name, members: seq<Member>, archiveLength: nat)
    returns (r: Option<Node>)
    ensures r.Some? <==> Accepted(hash, prefix, members, archiveLength)
    ensures r.Some? ==> Describes(multiset(Placements(hash, prefix, members)), r.value)
  {
    hide Parse, Consistent, Describes, Place, Fold, TotalPayload, Placements;
    if !(0 < archiveLength <= MAXIMUM_ARCHIVE) {
      return None;
    }
    var root := Directory(map[]);
    var payloadTotal := 0;
    var i := 0;
    assert TotalPayload([]) == 0 && Fold(Placements(hash, prefix, [])) == Some(root) by {
      NoMembers(hash, prefix);
    }
    while i < |members|
      invariant i <= |members| && root.Directory?
      invariant forall m :: m in members[..i] ==> Parse(hash, prefix, m).Some?
      invariant payloadTotal == TotalPayload(members[..i]) <= archiveLength
      invariant Fold(Placements(hash, prefix, members[..i])) == Some(root)
    {
      var member := members[i];
      var parsed := Parse(hash, prefix, member);
      if parsed.None? {
        return None;
      }
      assert members[..i + 1] == members[..i] + [member];
      NextMember(hash, prefix, members, i);
      if Accepted(hash, prefix, members, archiveLength) {
        StopsEarly(hash, prefix, members, archiveLength, i + 1);
      }
      if payloadTotal + Payload(member) > archiveLength {
        return None;
      }
      payloadTotal := payloadTotal + Payload(member);
      var placed := Place(root, parsed.value.path, parsed.value.item);
      if placed.None? {
        return None;
      }
      root := placed.value;
      i := i + 1;
    }
    assert members[..i] == members;
    FoldDescribes(Placements(hash, prefix, members));
    EmptyRoot(Placements(hash, prefix, members), root);
    if root.entries == map[] {
      return None;
    }
    return Some(root);
  }

  // ------------------------------------------------------------ the order of members does not matter

  lemma {:induction false} TakeOut(members: seq<Member>, i: nat)
    requires i < |members|
    ensures TotalPayload(members) == TotalPayload(members[..i] + members[i + 1..]) + Payload(members[i])
    decreases |members|
  {
    var rest := members[..i] + members[i + 1..];
    var front := members[..|members| - 1];
    if i == |members| - 1 {
      assert rest == front;
    } else {
      TakeOut(front, i);
      assert rest[..|rest| - 1] == front[..i] + front[i + 1..];
      assert rest[|rest| - 1] == members[|members| - 1];
    }
  }

  lemma TakeOutPlacement(hash: Hash, prefix: Name, members: seq<Member>, i: nat)
    requires i < |members| && forall m :: m in members ==> Parse(hash, prefix, m).Some?
    ensures var rest := members[..i] + members[i + 1..];
            && (forall m :: m in rest ==> Parse(hash, prefix, m).Some?)
            && multiset(Placements(hash, prefix, members)) ==
               multiset(Placements(hash, prefix, rest)) + multiset{Parse(hash, prefix, members[i]).value}
  {
    hide Parse;
    var rest := members[..i] + members[i + 1..];
    forall m | m in rest ensures Parse(hash, prefix, m).Some? {
      assert m in members;
    }
    var all, some := Placements(hash, prefix, members), Placements(hash, prefix, rest);
    assert some == all[..i] + all[i + 1..];
    assert all == all[..i] + [all[i]] + all[i + 1..];
  }

  lemma Without<T>(s: seq<T>, i: nat)
    requires i < |s|
    ensures multiset(s[..i] + s[i + 1..]) == multiset(s) - multiset{s[i]}
  {
    assert s == s[..i] + ([s[i]] + s[i + 1..]);
    assert multiset(s) == multiset(s[..i]) + multiset([s[i]] + s[i + 1..]);
  }

  /** The last of one order stands somewhere in the other, and the rests are again two orders of the same. */
  lemma Match<T>(ms: seq<T>, ns: seq<T>) returns (i: nat)
    requires multiset(ms) == multiset(ns) && ms != []
    ensures i < |ns| && ns[i] == ms[|ms| - 1]
    ensures multiset(ms[..|ms| - 1]) == multiset(ns[..i] + ns[i + 1..])
  {
    var k := |ms| - 1;
    assert ms[k] in multiset(ns);
    i :| 0 <= i < |ns| && ns[i] == ms[k];
    Without(ms, k);
    Without(ns, i);
    assert ms[..k] + ms[k + 1..] == ms[..k];
  }

  lemma {:induction false} PermutedMembers(hash: Hash, prefix: Name, ms: seq<Member>, ns: seq<Member>)
    requires multiset(ms) == multiset(ns) && forall m :: m in ms ==> Parse(hash, prefix, m).Some?
    ensures forall m :: m in ns ==> Parse(hash, prefix, m).Some?
    ensures TotalPayload(ms) == TotalPayload(ns)
    ensures multiset(Placements(hash, prefix, ms)) == multiset(Placements(hash, prefix, ns))
    decreases |ms|
  {
    hide Parse, TotalPayload, Placements;
    if ms == [] {
      NoMembers(hash, prefix);
    }
    forall m | m in ns ensures Parse(hash, prefix, m).Some? {
      assert m in multiset(ms);
    }
    if ms == [] {
      assert |ns| == |multiset(ms)|;
    } else {
      var k := |ms| - 1;
      var i := Match(ms, ns);
      assert ms[..k] + ms[k + 1..] == ms[..k];
      TakeOut(ms, k);
      TakeOut(ns, i);
      TakeOutPlacement(hash, prefix, ms, k);
      TakeOutPlacement(hash, prefix, ns, i);
      PermutedMembers(hash, prefix, ms[..k], ns[..i] + ns[i + 1..]);
    }
  }

  /** Any two orders of the same members are both refused, or both accepted with one and the same trie. */
  lemma OrderDoesNotMatter(hash: Hash, prefix: Name, ms: seq<Member>, ns: seq<Member>, archiveLength: nat)
    requires multiset(ms) == multiset(ns)
    ensures Accepted(hash, prefix, ms, archiveLength) <==> Accepted(hash, prefix, ns, archiveLength)
    ensures Accepted(hash, prefix, ms, archiveLength) ==>
              forall a, b :: Describes(multiset(Placements(hash, prefix, ms)), a) && Describes(multiset(Placements(hash, prefix, ns)), b)
                             ==> a == b
  {
    hide Parse, Consistent, Describes, Placements;
    if Accepted(hash, prefix, ms, archiveLength) {
      AcceptedPermutes(hash, prefix, ms, ns, archiveLength);
    } else if Accepted(hash, prefix, ns, archiveLength) {
      AcceptedPermutes(hash, prefix, ns, ms, archiveLength);
    }
    if Accepted(hash, prefix, ms, archiveLength) {
      PermutedMembers(hash, prefix, ms, ns);
      var bag := multiset(Placements(hash, prefix, ms));
      forall a, b | Describes(bag, a) && Describes(bag, b) ensures a == b {
        DescriptionIsUnique(bag, a, b);
      }
    }
  }

  lemma AcceptedPermutes(hash: Hash, prefix: Name, ms: seq<Member>, ns: seq<Member>, archiveLength: nat)
    requires multiset(ms) == multiset(ns) && Accepted(hash, prefix, ms, archiveLength)
    ensures Accepted(hash, prefix, ns, archiveLength)
  {
    hide Parse, Consistent;
    PermutedMembers(hash, prefix, ms, ns);
    var m :| m in ms && Parse(hash, prefix, m).value.path != [];
    assert m in multiset(ns);
  }

  // ------------------------------------------------------------ clean names

  predicate CleanName(name: Name) {
    name != [] && NUL !in name && SLASH !in name
  }

  ghost predicate Clean(node: Node)
    decreases node
  {
    node.Directory? ==> forall name :: name in node.entries ==> CleanName(name) && Clean(node.entries[name])
  }

  lemma ParsedPathIsClean(hash: Hash, prefix: Name, member: Member)
    requires Parse(hash, prefix, member).Some?
    ensures forall name :: name in Parse(hash, prefix, member).value.path ==> CleanName(name)
  {
    var name := if member.name != [] && member.name[|member.name| - 1] == SLASH then member.name[..|member.name| - 1] else member.name;
    PiecesLackSeparator(name, SLASH);
    var parts := Components(name);
    forall part | part in parts[1..] ensures part in parts && part in Split(name, SLASH) {
    }
  }

  lemma {:induction false} CleanKinds(node: Node)
    requires forall at :: KindAt(node, at) != Missing ==> forall name :: name in at ==> CleanName(name)
    ensures Clean(node)
    decreases node
  {
    if node.Directory? {
      forall name | name in node.entries ensures CleanName(name) && Clean(node.entries[name]) {
        KindBelow(node, name, []);
        assert name in [name];
        forall at | KindAt(node.entries[name], at) != Missing ensures forall n :: n in at ==> CleanName(n) {
          KindBelow(node, name, at);
          assert forall n :: n in at ==> n in [name] + at;
        }
        CleanKinds(node.entries[name]);
      }
    }
  }

  /** Every name in an accepted trie is nonempty and free of NUL and slash. */
  lemma AcceptedIsClean(hash: Hash, prefix: Name, members: seq<Member>, node: Node)
    requires forall m :: m in members ==> Parse(hash, prefix, m).Some?
    requires Describes(multiset(Placements(hash, prefix, members)), node)
    ensures Clean(node)
  {
    var placements := Placements(hash, prefix, members);
    forall at | KindAt(node, at) != Missing ensures forall name :: name in at ==> CleanName(name) {
      if at != [] {
        var p: Placement :| p in multiset(placements) && at <= p.path;
        var i :| 0 <= i < |placements| && placements[i] == p;
        assert members[i] in members;
        ParsedPathIsClean(hash, prefix, members[i]);
        assert forall name :: name in at ==> name in p.path;
      }
    }
    CleanKinds(node);
  }

  // ------------------------------------------------------------ the tree id

  /** Directories sort as if their name ended in a slash. */
  function SortName(node: Node, name: Name): Bytes
    requires node.Directory? && name in node.entries
  {
    if node.entries[name].Directory? then name + [SLASH] else name
  }

  function NameOf(sort: Bytes): Name {
    if sort != [] && sort[|sort| - 1] == SLASH then sort[..|sort| - 1] else sort
  }

  ghost function SortNames(node: Node): set<Bytes>
    requires node.Directory?
  {
    set name | name in node.entries :: SortName(node, name)
  }

  lemma SortNamesAreDistinct(node: Node, name: Name)
    requires node.Directory? && Clean(node) && name in node.entries
    ensures NameOf(SortName(node, name)) == name
  {
    var sort := SortName(node, name);
    if node.entries[name].Directory? {
      assert sort[..|sort| - 1] == name;
    } else {
      assert sort[|sort| - 1] in name;
    }
  }

  function ModeBytes(node: Node): Bytes {
    if node.Directory? then [52, 48, 48, 48, 48]
    else match node.mode
      case Executable => [49, 48, 48, 55, 53, 53]
      case Regular => [49, 48, 48, 54, 52, 52]
      case Symlink => [49, 50, 48, 48, 48, 48]
  }

  ghost function EntryId(hash: Hash, node: Node): Bytes
    requires Clean(node)
    decreases node, 2
  {
    if node.Leaf? then node.blob else hash(TreePreimage(hash, node))
  }

  ghost function TreePreimage(hash: Hash, node: Node): Bytes
    requires node.Directory? && Clean(node)
    decreases node, 1
  {
    var listing := Sorted(SortNames(node));
    ListingNames(node, listing);
    ObjectPreimage(TREE, TreePayload(hash, node, listing))
  }

  /** The listed entries one after the other: mode, space, name, NUL, id. */
  ghost function TreePayload(hash: Hash, node: Node, listing: seq<Bytes>): Bytes
    requires node.Directory? && Clean(node) && forall sort :: sort in listing ==> NameOf(sort) in node.entries
    decreases node, 0, |listing|
  {
    if listing == [] then []
    else
      var name := NameOf(listing[0]);
      var child := node.entries[name];
      ModeBytes(child) + [SPACE] + (name + [NUL] + (EntryId(hash, child) + TreePayload(hash, node, listing[1..])))
  }

  lemma ListingNames(node: Node, listing: seq<Bytes>)
    requires node.Directory? && Clean(node) && Elements(listing) == SortNames(node)
    ensures forall sort :: sort in listing ==> NameOf(sort) in node.entries
    ensures forall name :: name in node.entries ==> exists sort :: sort in listing && NameOf(sort) == name
  {
    forall sort | sort in listing ensures NameOf(sort) in node.entries {
      assert sort in Elements(listing);
      var name :| name in node.entries && sort == SortName(node, name);
      SortNamesAreDistinct(node, name);
    }
    forall name | name in node.entries ensures exists sort :: sort in listing && NameOf(sort) == name {
      SortNamesAreDistinct(node, name);
      assert SortName(node, name) in Elements(listing);
    }
  }

  /** The id the source prints, in binary. */
  ghost function TreeId(hash: Hash, node: Node): Bytes
    requires node.Directory? && Clean(node)
  {
    EntryId(hash, node)
  }

  // ------------------------------------------------------------ computing the id

  datatype Row = Row(sort: Bytes, bytes: Bytes)

  function Sorts(rows: seq<Row>): (sorts: seq<Bytes>)
    ensures |sorts| == |rows| && forall i :: 0 <= i < |rows| ==> sorts[i] == rows[i].sort
  {
    seq(|rows|, i requires 0 <= i < |rows| => rows[i].sort)
  }

  /** Puts one more row where it belongs. */
  method InsertRow(rows: seq<Row>, row: Row) returns (more: seq<Row>)
    requires Increasing(Below, Sorts(rows)) && row.sort !in Sorts(rows)
    ensures Increasing(Below, Sorts(more))
    ensures forall r :: r in more <==> r == row || r in rows
  {
    BelowIsTotalOrder();
    var i := |rows|;
    while i > 0 && Below(row.sort, rows[i - 1].sort)
      invariant 0 <= i <= |rows|
      invariant forall j :: i <= j < |rows| ==> Below(row.sort, rows[j].sort)
    {
      i := i - 1;
    }
    more := rows[..i] + [row] + rows[i..];
    InsertedInOrder(rows, row, i);
  }

  lemma InsertedInOrder(rows: seq<Row>, row: Row, i: nat)
    requires i <= |rows| && Increasing(Below, Sorts(rows)) && row.sort !in Sorts(rows)
    requires forall j :: i <= j < |rows| ==> Below(row.sort, rows[j].sort)
    requires i > 0 ==> !Below(row.sort, rows[i - 1].sort)
    ensures Increasing(Below, Sorts(rows[..i] + [row] + rows[i..]))
  {
    BelowIsTotalOrder();
    var more, sorts := rows[..i] + [row] + rows[i..], Sorts(rows);
    forall j | 0 <= j < i ensures Below(rows[j].sort, row.sort) {
      assert sorts[i - 1] in sorts && sorts[i - 1] != row.sort;
      assert Below(rows[i - 1].sort, row.sort);
      assert j < i - 1 ==> Below(sorts[j], sorts[i - 1]);
    }
    forall j, k | 0 <= j < k < |more| ensures Below(Sorts(more)[j], Sorts(more)[k]) {
      assert j < i && k > i ==> Below(sorts[j], sorts[k - 1]);
      assert j > i ==> Below(sorts[j - 1], sorts[k - 1]);
      assert k < i ==> Below(sorts[j], sorts[k]);
    }
  }

  ghost function RowOf(hash: Hash, node: Node, name: Name): Row
    requires node.Directory? && Clean(node) && name in node.entries
  {
    Row(SortName(node, name), ModeBytes(node.entries[name]) + [SPACE] + name + [NUL] + EntryId(hash, node.entries[name]))
  }

  ghost function RowsOf(hash: Hash, node: Node, names: set<Name>): set<Row>
    requires node.Directory? && Clean(node) && names <= node.entries.Keys
  {
    set name | name in names :: RowOf(hash, node, name)
  }

  lemma FreshRow(hash: Hash, node: Node, rows: seq<Row>, names: set<Name>, name: Name)
    requires node.Directory? && Clean(node) && names <= node.entries.Keys && name in node.entries && name !in names
    requires Elements(rows) == RowsOf(hash, node, names)
    ensures SortName(node, name) !in Sorts(rows)
    ensures RowsOf(hash, node, names + {name}) == Elements(rows) + {RowOf(hash, node, name)}
  {
    forall i | 0 <= i < |rows| ensures Sorts(rows)[i] != SortName(node, name) {
      assert rows[i] in Elements(rows);
      var other :| other in names && rows[i] == RowOf(hash, node, other);
      SortNamesAreDistinct(node, other);
      SortNamesAreDistinct(node, name);
    }
  }

  lemma RowsListNode(hash: Hash, node: Node, rows: seq<Row>)
    requires node.Directory? && Clean(node) && Increasing(Below, Sorts(rows))
    requires Elements(rows) == RowsOf(hash, node, node.entries.Keys)
    ensures Sorts(rows) == Sorted(SortNames(node))
    ensures forall i :: 0 <= i < |rows| ==> NameOf(rows[i].sort) in node.entries && rows[i] == RowOf(hash, node, NameOf(rows[i].sort))
  {
    forall i | 0 <= i < |rows|
      ensures NameOf(rows[i].sort) in node.entries && rows[i] == RowOf(hash, node, NameOf(rows[i].sort))
      ensures rows[i].sort in SortNames(node)
    {
      assert rows[i] in Elements(rows);
      var name :| name in node.entries && rows[i] == RowOf(hash, node, name);
      SortNamesAreDistinct(node, name);
    }
    var sorts := Sorts(rows);
    forall sort | sort in SortNames(node) ensures sort in Elements(sorts) {
      var name :| name in node.entries && sort == SortName(node, name);
      assert RowOf(hash, node, name) in Elements(rows);
      var i :| 0 <= i < |rows| && rows[i] == RowOf(hash, node, name);
      assert sorts[i] == sort;
    }
    assert Elements(sorts) == SortNames(node);
    ListingIsUnique(sorts, Sorted(SortNames(node)));
  }

  /** The source's own computation: collect the entries in whatever order the dictionary has them, sorted by name,
      join them and hash. */
  method ComputeTreeId(hash: Hash, node: Node) returns (id: Bytes)
    requires node.Directory? && Clean(node)
    ensures id == TreeId(hash, node) && IsGitId(hash, node, id)
    decreases node, 1
  {
    TreeIdIsGits(hash, node);
    hide IsGitId;
    var rows := CollectRows(hash, node);
    RowsListNode(hash, node, rows);
    var payload := JoinRows(hash, node, rows);
    assert TreePreimage(hash, node) == ObjectPreimage(TREE, payload);
    id := ObjectId(hash, TREE, payload);
  }

  method CollectRows(hash: Hash, node: Node) returns (rows: seq<Row>)
    requires node.Directory? && Clean(node)
    ensures Increasing(Below, Sorts(rows)) && Elements(rows) == RowsOf(hash, node, node.entries.Keys)
    decreases node, 0
  {
    hide IsGitId;
    rows := [];
    var rest := node.entries.Keys;
    while rest != {}
      invariant rest <= node.entries.Keys && Increasing(Below, Sorts(rows))
      invariant Elements(rows) == RowsOf(hash, node, node.entries.Keys - rest)
      decreases |rest|
    {
      var name :| name in rest;
      var child := node.entries[name];
      var childId: Bytes;
      if child.Leaf? {
        childId := child.blob;
      } else {
        childId := ComputeTreeId(hash, child);
      }
      FreshRow(hash, node, rows, node.entries.Keys - rest, name);
      ghost var before := rows;
      var row := Row(SortName(node, name), ModeBytes(child) + [SPACE] + name + [NUL] + childId);
      rows := InsertRow(rows, row);
      assert Elements(rows) == Elements(before) + {row};
      assert node.entries.Keys - (rest - {name}) == node.entries.Keys - rest + {name};
      rest := rest - {name};
    }
    assert node.entries.Keys - rest == node.entries.Keys;
  }

  method JoinRows(ghost hash: Hash, ghost node: Node, rows: seq<Row>) returns (payload: Bytes)
    requires node.Directory? && Clean(node)
    requires forall i :: 0 <= i < |rows| ==> NameOf(rows[i].sort) in node.entries && rows[i] == RowOf(hash, node, NameOf(rows[i].sort))
    ensures payload == TreePayload(hash, node, Sorts(rows))
  {
    payload := [];
    ghost var sorts := Sorts(rows);
    var i := |rows|;
    while i > 0
      invariant 0 <= i <= |rows| && payload == TreePayload(hash, node, sorts[i..])
    {
      i := i - 1;
      assert sorts[i..][1..] == sorts[i + 1..];
      ghost var name := NameOf(rows[i].sort);
      JoinOne(ModeBytes(node.entries[name]), name, EntryId(hash, node.entries[name]), payload);
      payload := rows[i].bytes + payload;
    }
    assert sorts[0..] == sorts;
  }

  lemma JoinOne(mode: Bytes, name: Name, id: Bytes, rest: Bytes)
    ensures mode + [SPACE] + name + [NUL] + id + rest == mode + [SPACE] + (name + [NUL] + (id + rest))
  {
  }

  // ------------------------------------------------------------ the id is Git's

  /** The mode text Git writes for an entry. */
  ghost function GitMode(node: Node): Bytes {
    match node
    case Directory(_) => Ascii("40000")
    case Leaf(Executable, _) => Ascii("100755")
    case Leaf(Regular, _) => Ascii("100644")
    case Leaf(Symlink, _) => Ascii("120000")
  }

  /** Git orders a directory's entries by name, a subdirectory's as if it ended in a slash. */
  ghost function GitOrder(name: Name, child: Node): Bytes {
    if child.Directory? then name + Ascii("/") else name
  }

  function Flat(parts: seq<Bytes>): Bytes {
    if parts == [] then [] else parts[0] + Flat(parts[1..])
  }

  /** One entry comes before the other in Git's order, by bytes. */
  ghost predicate ComesBefore(node: Node, a: Name, b: Name) {
    && node.Directory? && a in node.entries && b in node.entries
    && exists k: nat :: SmallerAt(GitOrder(a, node.entries[a]), GitOrder(b, node.entries[b]), k)
  }

  /** A listing of a directory: every name once, in Git's order. */
  ghost predicate IsListing(node: Node, names: seq<Name>) {
    && node.Directory?
    && (forall name :: name in names <==> name in node.entries)
    && forall i, j :: 0 <= i < j < |names| ==> ComesBefore(node, names[i], names[j])
  }

  /** The rows of a tree object: mode, a space, the name, a NUL and the entry's id. */
  ghost predicate AreRows(node: Node, names: seq<Name>, ids: seq<Bytes>, rows: seq<Bytes>) {
    && node.Directory? && |ids| == |names| && |rows| == |names|
    && forall i :: 0 <= i < |names| ==>
         && names[i] in node.entries
         && rows[i] == GitMode(node.entries[names[i]]) + Ascii(" ") + names[i] + [0] + ids[i]
  }

  /** The object those rows make: "tree", a space, their length in decimal, a NUL, and the rows one after the other. */
  ghost function GitObject(rows: seq<Bytes>): Bytes {
    Ascii("tree ") + Decimal(|Flat(rows)|) + [0] + Flat(rows)
  }

  /** A file or symlink goes by its blob's id, a directory by the hash of the object made of its entries in Git's order,
      each with its own id. */
  ghost predicate IsGitId(hash: Hash, node: Node, id: Bytes)
    decreases node
  {
    if node.Leaf? then id == node.blob
    else
      exists names: seq<Name>, ids: seq<Bytes>, rows: seq<Bytes> ::
        && IsListing(node, names) && AreRows(node, names, ids, rows) && id == hash(GitObject(rows))
        && forall i :: 0 <= i < |names| && names[i] in node.entries ==> IsGitId(hash, node.entries[names[i]], ids[i])
  }

  lemma GitTexts()
    ensures Ascii("40000") == [52, 48, 48, 48, 48] && Ascii("100755") == [49, 48, 48, 55, 53, 53]
    ensures Ascii("100644") == [49, 48, 48, 54, 52, 52] && Ascii("120000") == [49, 50, 48, 48, 48, 48]
    ensures Ascii(" ") == [SPACE] && Ascii("/") == [SLASH]
    ensures Ascii("tree ") == TREE + [SPACE] && Ascii("blob ") == BLOB + [SPACE]
  {
  }

  lemma ModesAreGits(node: Node)
    ensures ModeBytes(node) == GitMode(node)
  {
    GitTexts();
    hide Ascii;
  }

  lemma HeadersAreGits(payload: Bytes)
    ensures ObjectPreimage(TREE, payload) == Ascii("tree ") + Decimal(|payload|) + [0] + payload
    ensures ObjectPreimage(BLOB, payload) == Ascii("blob ") + Decimal(|payload|) + [0] + payload
  {
    GitTexts();
    hide Ascii, Decimal;
  }

  ghost function NamesOf(listing: seq<Bytes>): (names: seq<Name>)
    ensures |names| == |listing| && forall i :: 0 <= i < |listing| ==> names[i] == NameOf(listing[i])
  {
    seq(|listing|, i requires 0 <= i < |listing| => NameOf(listing[i]))
  }

  ghost function IdsFor(hash: Hash, node: Node, names: seq<Name>): (ids: seq<Bytes>)
    requires node.Directory? && Clean(node) && forall name :: name in names ==> name in node.entries
    ensures |ids| == |names| && forall i :: 0 <= i < |names| ==> ids[i] == EntryId(hash, node.entries[names[i]])
  {
    seq(|names|, i requires 0 <= i < |names| => EntryId(hash, node.entries[names[i]]))
  }

  ghost function RowsFor(node: Node, names: seq<Name>, ids: seq<Bytes>): (rows: seq<Bytes>)
    requires node.Directory? && |ids| == |names| && forall name :: name in names ==> name in node.entries
    ensures AreRows(node, names, ids, rows)
  {
    seq(|names|, i requires 0 <= i < |names| => GitMode(node.entries[names[i]]) + Ascii(" ") + names[i] + [0] + ids[i])
  }

  lemma {:induction false} PayloadIsRows(hash: Hash, node: Node, listing: seq<Bytes>, rows: seq<Bytes>)
    requires node.Directory? && Clean(node) && forall sort :: sort in listing ==> NameOf(sort) in node.entries
    requires AreRows(node, NamesOf(listing), IdsFor(hash, node, NamesOf(listing)), rows)
    ensures TreePayload(hash, node, listing) == Flat(rows)
    decreases |listing|
  {
    if listing != [] {
      var name := NameOf(listing[0]);
      var child := node.entries[name];
      assert NamesOf(listing)[1..] == NamesOf(listing[1..]);
      assert IdsFor(hash, node, NamesOf(listing))[1..] == IdsFor(hash, node, NamesOf(listing[1..]));
      PayloadIsRows(hash, node, listing[1..], rows[1..]);
      ModesAreGits(child);
      GitTexts();
      hide EntryId, GitMode, ModeBytes, Ascii;
      JoinOne(ModeBytes(child), name, EntryId(hash, child), TreePayload(hash, node, listing[1..]));
    }
  }

  lemma SortedIsListing(node: Node)
    requires node.Directory? && Clean(node)
    ensures IsListing(node, NamesOf(Sorted(SortNames(node))))
  {
    hide GitOrder, Sorted, SortNames, Below, Clean;
    var listing := Sorted(SortNames(node));
    var names := NamesOf(listing);
    ListingNames(node, listing);
    forall name | name in node.entries ensures name in names {
      var sort :| sort in listing && NameOf(sort) == name;
      var i :| 0 <= i < |listing| && listing[i] == sort;
      assert names[i] == name;
    }
    forall name | name in names ensures name in node.entries {
      var i :| 0 <= i < |names| && names[i] == name;
      assert listing[i] in listing;
    }
    forall i, j | 0 <= i < j < |names| ensures ComesBefore(node, names[i], names[j]) {
      assert listing[i] in Elements(listing) && listing[j] in Elements(listing);
      ListedIsOrder(node, listing[i]);
      ListedIsOrder(node, listing[j]);
      BelowMeans(listing[i], listing[j]);
    }
  }

  lemma ListedIsOrder(node: Node, sort: Bytes)
    requires node.Directory? && Clean(node) && sort in SortNames(node)
    ensures NameOf(sort) in node.entries && sort == GitOrder(NameOf(sort), node.entries[NameOf(sort)])
  {
    var name :| name in node.entries && sort == SortName(node, name);
    SortNamesAreDistinct(node, name);
    GitTexts();
    hide Ascii;
  }

  lemma ObjectIsGits(hash: Hash, node: Node) returns (names: seq<Name>, ids: seq<Bytes>, rows: seq<Bytes>)
    requires node.Directory? && Clean(node)
    ensures IsListing(node, names) && AreRows(node, names, ids, rows) && EntryId(hash, node) == hash(GitObject(rows))
    ensures forall i :: 0 <= i < |names| ==> names[i] in node.entries && ids[i] == EntryId(hash, node.entries[names[i]])
  {
    var listing := Sorted(SortNames(node));
    ListingNames(node, listing);
    SortedIsListing(node);
    names := NamesOf(listing);
    ids := IdsFor(hash, node, names);
    rows := RowsFor(node, names, ids);
    PayloadIsRows(hash, node, listing, rows);
    HeadersAreGits(Flat(rows));
    hide Ascii, GitMode, Decimal, IsListing, AreRows, Flat, TreePayload, Sorted, SortNames, ObjectPreimage;
  }

  /** The computed id is Git's. */
  lemma {:induction false} TreeIdIsGits(hash: Hash, node: Node)
    requires Clean(node)
    ensures IsGitId(hash, node, EntryId(hash, node))
    decreases node
  {
    if node.Directory? {
      var names, ids, rows := ObjectIsGits(hash, node);
      forall i | 0 <= i < |names| && names[i] in node.entries ensures IsGitId(hash, node.entries[names[i]], ids[i]) {
        TreeIdIsGits(hash, node.entries[names[i]]);
      }
      hide IsListing, AreRows, GitObject, EntryId;
    }
  }

  // ------------------------------------------------------------ equal ids mean equal tries

  /** The byte strings hashed while computing the ids of a trie's directories. */
  ghost predicate Hashed(hash: Hash, node: Node, x: Bytes)
    requires Clean(node)
    decreases node
  {
    && node.Directory?
    && (x == TreePreimage(hash, node) || exists name :: name in node.entries && Hashed(hash, node.entries[name], x))
  }

  /** No two different byte strings among those hashed for the two tries share an id. */
  ghost predicate CollisionFree(hash: Hash, a: Node, b: Node)
    requires Clean(a) && Clean(b)
  {
    forall x, y :: Hashed(hash, a, x) && Hashed(hash, b, y) && hash(x) == hash(y) ==> x == y
  }

  ghost predicate FixedLength(hash: Hash, n: nat) {
    forall x :: |hash(x)| == n
  }

  ghost predicate IdsHaveLength(node: Node, n: nat)
    decreases node
  {
    if node.Leaf? then |node.blob| == n
    else forall name :: name in node.entries ==> IdsHaveLength(node.entries[name], n)
  }

  lemma ModesAreTold(a: Node, b: Node)
    ensures SPACE !in ModeBytes(a)
    ensures ModeBytes(a) == ModeBytes(b) ==> a.Directory? == b.Directory? && (a.Leaf? ==> a.mode == b.mode)
  {
    var x, y := ModeBytes(a), ModeBytes(b);
    if x == y {
      assert |x| == |y| && x[1] == y[1] && x[3] == y[3];
    }
  }

  lemma PreimagesAreTold(kind: Bytes, p: Bytes, q: Bytes)
    requires NUL !in kind && ObjectPreimage(kind, p) == ObjectPreimage(kind, q)
    ensures p == q
  {
    CutIsUnique(kind + [SPACE] + Decimal(|p|), kind + [SPACE] + Decimal(|q|), p, q, NUL);
  }

  ghost predicate SameEntry(hash: Hash, a: Node, b: Node, name: Name)
    requires a.Directory? && Clean(a) && b.Directory? && Clean(b)
  {
    && name in a.entries && name in b.entries
    && ModeBytes(a.entries[name]) == ModeBytes(b.entries[name])
    && EntryId(hash, a.entries[name]) == EntryId(hash, b.entries[name])
  }

  /** Entries are told apart by their bytes alone: the mode ends at the first space, the name at the first NUL, and
      the id has a known length. */
  lemma {:induction false} EntriesAreTold(hash: Hash, n: nat, a: Node, b: Node, la: seq<Bytes>, lb: seq<Bytes>)
    requires FixedLength(hash, n)
    requires a.Directory? && Clean(a) && IdsHaveLength(a, n) && b.Directory? && Clean(b) && IdsHaveLength(b, n)
    requires forall sort :: sort in la ==> NameOf(sort) in a.entries
    requires forall sort :: sort in lb ==> NameOf(sort) in b.entries
    requires TreePayload(hash, a, la) == TreePayload(hash, b, lb)
    ensures |la| == |lb|
    ensures forall i :: 0 <= i < |la| ==> NameOf(la[i]) == NameOf(lb[i]) && SameEntry(hash, a, b, NameOf(la[i]))
    decreases |la|
  {
    if la != [] && lb != [] {
      var x, y := NameOf(la[0]), NameOf(lb[0]);
      FirstEntryIsTold(hash, n, a, b, x, y, TreePayload(hash, a, la[1..]), TreePayload(hash, b, lb[1..]));
      EntriesAreTold(hash, n, a, b, la[1..], lb[1..]);
    }
  }

  lemma FirstEntryIsTold(hash: Hash, n: nat, a: Node, b: Node, x: Name, y: Name, restA: Bytes, restB: Bytes)
    requires FixedLength(hash, n)
    requires a.Directory? && Clean(a) && IdsHaveLength(a, n) && b.Directory? && Clean(b) && IdsHaveLength(b, n)
    requires x in a.entries && y in b.entries
    requires ModeBytes(a.entries[x]) + [SPACE] + (x + [NUL] + (EntryId(hash, a.entries[x]) + restA))
          == ModeBytes(b.entries[y]) + [SPACE] + (y + [NUL] + (EntryId(hash, b.entries[y]) + restB))
    ensures x == y && SameEntry(hash, a, b, x) && restA == restB
  {
    var p, q := a.entries[x], b.entries[y];
    var idP, idQ := EntryId(hash, p), EntryId(hash, q);
    ModesAreTold(p, q);
    ModesAreTold(q, p);
    CutIsUnique(ModeBytes(p), ModeBytes(q), x + [NUL] + (idP + restA), y + [NUL] + (idQ + restB), SPACE);
    CutIsUnique(x, y, idP + restA, idQ + restB, NUL);
    assert |idP| == n && |idQ| == n;
    assert idP == (idP + restA)[..n] && idQ == (idQ + restB)[..n];
    assert restA == (idP + restA)[n..] && restB == (idQ + restB)[n..];
  }

  /** Two tries have one id exactly when they are equal as nested maps, unless the computation itself exhibits a
      hash collision. */
  lemma {:induction false} TreeIdsAreInjective(hash: Hash, n: nat, a: Node, b: Node)
    requires FixedLength(hash, n)
    requires a.Directory? && Clean(a) && IdsHaveLength(a, n) && b.Directory? && Clean(b) && IdsHaveLength(b, n)
    requires CollisionFree(hash, a, b)
    ensures TreeId(hash, a) == TreeId(hash, b) <==> a == b
    decreases a
  {
    if TreeId(hash, a) == TreeId(hash, b) {
      var la, lb := Sorted(SortNames(a)), Sorted(SortNames(b));
      ListingNames(a, la);
      ListingNames(b, lb);
      assert Hashed(hash, a, TreePreimage(hash, a)) && Hashed(hash, b, TreePreimage(hash, b));
      PreimagesAreTold(TREE, TreePayload(hash, a, la), TreePayload(hash, b, lb));
      EntriesAreTold(hash, n, a, b, la, lb);
      SameNames(hash, a, b, la, lb);
      forall name | name in a.entries ensures a.entries[name] == b.entries[name] {
        var p, q := a.entries[name], b.entries[name];
        ModesAreTold(p, q);
        if p.Directory? {
          ChildrenCollideLess(hash, a, b, name);
          TreeIdsAreInjective(hash, n, p, q);
        }
      }
      assert a.entries == b.entries;
    }
  }

  lemma SameNames(hash: Hash, a: Node, b: Node, la: seq<Bytes>, lb: seq<Bytes>)
    requires a.Directory? && Clean(a) && b.Directory? && Clean(b)
    requires Elements(la) == SortNames(a) && Elements(lb) == SortNames(b) && |la| == |lb|
    requires forall i :: 0 <= i < |la| ==> NameOf(la[i]) == NameOf(lb[i]) && SameEntry(hash, a, b, NameOf(la[i]))
    ensures a.entries.Keys == b.entries.Keys
    ensures forall name :: name in a.entries ==> SameEntry(hash, a, b, name)
  {
    ListingNames(a, la);
    ListingNames(b, lb);
    forall name | name in a.entries ensures SameEntry(hash, a, b, name) {
      var sort :| sort in la && NameOf(sort) == name;
      var i :| 0 <= i < |la| && la[i] == sort;
      assert SameEntry(hash, a, b, NameOf(la[i]));
    }
    forall name | name in b.entries ensures name in a.entries {
      var sort :| sort in lb && NameOf(sort) == name;
      var i :| 0 <= i < |lb| && lb[i] == sort;
      assert SameEntry(hash, a, b, NameOf(la[i]));
    }
  }

  lemma ChildrenCollideLess(hash: Hash, a: Node, b: Node, name: Name)
    requires a.Directory? && Clean(a) && b.Directory? && Clean(b) && name in a.entries && name in b.entries
    requires CollisionFree(hash, a, b)
    ensures CollisionFree(hash, a.entries[name], b.entries[name])
  {
    forall x, y | Hashed(hash, a.entries[name], x) && Hashed(hash, b.entries[name], y) && hash(x) == hash(y) ensures x == y {
      assert Hashed(hash, a, x) && Hashed(hash, b, y);
    }
  }

  lemma {:induction false} KindsGiveLengths(node: Node, n: nat)
    requires forall at :: KindAt(node, at).IsLeaf? ==> |KindAt(node, at).blob| == n
    ensures IdsHaveLength(node, n)
    decreases node
  {
    if node.Leaf? {
      assert KindAt(node, []).IsLeaf?;
    } else {
      forall name | name in node.entries ensures IdsHaveLength(node.entries[name], n) {
        forall at | KindAt(node.entries[name], at).IsLeaf? ensures |KindAt(node.entries[name], at).blob| == n {
          KindBelow(node, name, at);
        }
        KindsGiveLengths(node.entries[name], n);
      }
    }
  }

  /** What stands as a file in a described trie came from a member. */
  lemma LeafHasMember(bag: multiset<Placement>, node: Node, at: Path) returns (p: Placement)
    requires Describes(bag, node) && KindAt(node, at).IsLeaf?
    ensures p in bag && p.path == at && p.item == NewLeaf(KindAt(node, at).mode, KindAt(node, at).blob)
  {
    assert exists p :: p in bag && at <= p.path;
    p :| p in bag && at <= p.path;
    assert p.path == at && p.item.NewLeaf?;
    assert KindAt(node, p.path) == IsLeaf(p.item.mode, p.item.blob);
  }

  lemma AcceptedIdsHaveLength(hash: Hash, prefix: Name, members: seq<Member>, node: Node, n: nat)
    requires FixedLength(hash, n) && forall m :: m in members ==> Parse(hash, prefix, m).Some?
    requires Describes(multiset(Placements(hash, prefix, members)), node)
    ensures IdsHaveLength(node, n)
  {
    var placements := Placements(hash, prefix, members);
    forall at | KindAt(node, at).IsLeaf? ensures |KindAt(node, at).blob| == n {
      var p := LeafHasMember(multiset(placements), node, at);
      var i :| 0 <= i < |placements| && placements[i] == p;
      LeafIdIsAnId(hash, prefix, members[i], n);
    }
    KindsGiveLengths(node, n);
  }

  lemma LeafIdIsAnId(hash: Hash, prefix: Name, member: Member, n: nat)
    requires FixedLength(hash, n) && Parse(hash, prefix, member).Some?
    ensures var item := Parse(hash, prefix, member).value.item; item.NewLeaf? ==> |item.blob| == n
  {
  }

  /** The injectivity law applies to every accepted archive. */
  lemma AcceptedTriesQualify(hash: Hash, n: nat, prefix: Name, members: seq<Member>, archiveLength: nat, node: Node)
    requires FixedLength(hash, n) && Accepted(hash, prefix, members, archiveLength)
    requires Describes(multiset(Placements(hash, prefix, members)), node)
    ensures node.Directory? && Clean(node) && IdsHaveLength(node, n)
  {
    AcceptedIsClean(hash, prefix, members, node);
    AcceptedIdsHaveLength(hash, prefix, members, node, n);
  }

  /** One tree id exactly when the same files, symlinks and directories stand at the same paths. */
  lemma OneIdOneShape(hash: Hash, n: nat, a: Node, b: Node)
    requires FixedLength(hash, n)
    requires a.Directory? && Clean(a) && IdsHaveLength(a, n) && b.Directory? && Clean(b) && IdsHaveLength(b, n)
    requires CollisionFree(hash, a, b)
    ensures TreeId(hash, a) == TreeId(hash, b) <==> SameShape(a, b)
  {
    TreeIdsAreInjective(hash, n, a, b);
    if SameShape(a, b) {
      SameKindsSameTrie(a, b);
    }
  }

  // ------------------------------------------------------------ two archives

  /** This member is the file or symlink at a path. */
  ghost predicate IsFileAt(prefix: Name, member: Member, at: Path) {
    Located(prefix, member) == Some(at) && Offer(member.body).AFile?
  }

  ghost predicate IsAtOrBelow(prefix: Name, member: Member, at: Path) {
    Located(prefix, member).Some? && at <= Located(prefix, member).value
  }

  /** What an archive has at a path, read off its members: a file or symlink with its payload, or a directory that some
      member declares or implies. */
  ghost function HeldAt(prefix: Name, members: seq<Member>, at: Path): Held {
    if exists m :: m in members && IsFileAt(prefix, m, at) then
      var m :| m in members && IsFileAt(prefix, m, at);
      Offer(m.body)
    else if at == [] || exists m :: m in members && IsAtOrBelow(prefix, m, at) then ADirectory
    else Nothing
  }

  function KindOf(hash: Hash, held: Held): Kind {
    match held
    case Nothing => Missing
    case ADirectory => IsDirectory
    case AFile(mode, payload) => IsLeaf(mode, ObjectId(hash, BLOB, payload))
  }

  lemma MemberIsPlaced(hash: Hash, prefix: Name, members: seq<Member>, m: Member)
    requires (forall x :: x in members ==> Parse(hash, prefix, x).Some?) && m in members
    ensures Parse(hash, prefix, m).value in multiset(Placements(hash, prefix, members))
  {
    hide Parse;
    var i :| 0 <= i < |members| && members[i] == m;
    assert Placements(hash, prefix, members)[i] in Placements(hash, prefix, members);
  }

  lemma PlacedIsMember(hash: Hash, prefix: Name, members: seq<Member>, p: Placement) returns (m: Member)
    requires forall x :: x in members ==> Parse(hash, prefix, x).Some?
    requires p in multiset(Placements(hash, prefix, members))
    ensures m in members && p == Parse(hash, prefix, m).value
  {
    hide Parse;
    var placements := Placements(hash, prefix, members);
    var i :| 0 <= i < |placements| && placements[i] == p;
    m := members[i];
  }

  lemma ParsedMeans(hash: Hash, prefix: Name, m: Member)
    requires Parse(hash, prefix, m).Some?
    ensures Located(prefix, m).Some? && Offer(m.body) != Nothing
    ensures Parse(hash, prefix, m).value == Placement(Located(prefix, m).value, ItemOf(hash, Offer(m.body)))
  {
  }

  lemma NothingIsHeld(hash: Hash, prefix: Name, members: seq<Member>, node: Node, at: Path)
    requires forall m :: m in members ==> Parse(hash, prefix, m).Some?
    requires Describes(multiset(Placements(hash, prefix, members)), node)
    requires at != [] && forall m :: m in members ==> !IsAtOrBelow(prefix, m, at)
    ensures KindAt(node, at) == Missing
  {
    hide Parse, Placements, Located, Offer;
    forall p | p in multiset(Placements(hash, prefix, members)) ensures !(at <= p.path) {
      var m := PlacedIsMember(hash, prefix, members, p);
      ParsedMeans(hash, prefix, m);
      assert !IsAtOrBelow(prefix, m, at);
    }
  }

  /** The trie of an archive has at each path what the archive has there, payloads replaced by their ids. */
  lemma KindIsHeld(hash: Hash, prefix: Name, members: seq<Member>, node: Node, at: Path)
    requires forall m :: m in members ==> Parse(hash, prefix, m).Some?
    requires Describes(multiset(Placements(hash, prefix, members)), node)
    ensures KindAt(node, at) == KindOf(hash, HeldAt(prefix, members, at))
  {
    hide Located, Offer, ObjectId, Parse, Placements;
    if exists m :: m in members && IsFileAt(prefix, m, at) {
      var m :| m in members && IsFileAt(prefix, m, at) && HeldAt(prefix, members, at) == Offer(m.body);
      MemberIsPlaced(hash, prefix, members, m);
      ParsedMeans(hash, prefix, m);
    } else if at != [] {
      if exists m :: m in members && IsAtOrBelow(prefix, m, at) {
        var m :| m in members && IsAtOrBelow(prefix, m, at);
        MemberIsPlaced(hash, prefix, members, m);
        ParsedMeans(hash, prefix, m);
        assert !IsFileAt(prefix, m, at);
      } else {
        NothingIsHeld(hash, prefix, members, node, at);
      }
    }
  }

  /** No two payloads, one of each archive, share an id by a collision of their preimages. */
  ghost predicate BlobsCollideNot(hash: Hash, a: seq<Member>, b: seq<Member>) {
    forall x, y :: x in a && y in b && Offer(x.body).AFile? && Offer(y.body).AFile?
                   && ObjectId(hash, BLOB, Offer(x.body).payload) == ObjectId(hash, BLOB, Offer(y.body).payload) ==>
                     ObjectPreimage(BLOB, Offer(x.body).payload) == ObjectPreimage(BLOB, Offer(y.body).payload)
  }

  datatype Archive = Archive(prefix: Name, members: seq<Member>, length: nat)

  /** The trie an accepted archive folds into. */
  ghost function TrieOf(hash: Hash, n: nat, archive: Archive): (node: Node)
    requires FixedLength(hash, n) && Accepted(hash, archive.prefix, archive.members, archive.length)
    ensures Describes(multiset(Placements(hash, archive.prefix, archive.members)), node)
    ensures node.Directory? && Clean(node) && IdsHaveLength(node, n)
  {
    var placements := Placements(hash, archive.prefix, archive.members);
    FoldDescribes(placements);
    AcceptedTriesQualify(hash, n, archive.prefix, archive.members, archive.length, Fold(placements).value);
    Fold(placements).value
  }

  ghost predicate SameContents(a: Archive, b: Archive) {
    forall at :: HeldAt(a.prefix, a.members, at) == HeldAt(b.prefix, b.members, at)
  }

  /** A file an archive has was offered by one of its members. */
  lemma HeldIsOffered(archive: Archive, at: Path) returns (m: Member)
    requires HeldAt(archive.prefix, archive.members, at).AFile?
    ensures m in archive.members && HeldAt(archive.prefix, archive.members, at) == Offer(m.body)
  {
    m :| m in archive.members && IsFileAt(archive.prefix, m, at) && HeldAt(archive.prefix, archive.members, at) == Offer(m.body);
  }

  lemma SameKindSameHeld(hash: Hash, a: Archive, b: Archive, at: Path)
    requires BlobsCollideNot(hash, a.members, b.members)
    requires KindOf(hash, HeldAt(a.prefix, a.members, at)) == KindOf(hash, HeldAt(b.prefix, b.members, at))
    ensures HeldAt(a.prefix, a.members, at) == HeldAt(b.prefix, b.members, at)
  {
    hide HeldAt;
    if HeldAt(a.prefix, a.members, at).AFile? {
      var x := HeldIsOffered(a, at);
      var y := HeldIsOffered(b, at);
      PreimagesAreTold(BLOB, Offer(x.body).payload, Offer(y.body).payload);
    }
  }

  lemma SameShapeSameContents(hash: Hash, a: Archive, b: Archive, x: Node, y: Node)
    requires forall m :: m in a.members ==> Parse(hash, a.prefix, m).Some?
    requires forall m :: m in b.members ==> Parse(hash, b.prefix, m).Some?
    requires Describes(multiset(Placements(hash, a.prefix, a.members)), x)
    requires Describes(multiset(Placements(hash, b.prefix, b.members)), y)
    requires BlobsCollideNot(hash, a.members, b.members)
    ensures SameShape(x, y) <==> SameContents(a, b)
  {
    hide HeldAt, KindAt, KindOf, Describes, BlobsCollideNot, Parse, Placements;
    forall at ensures KindAt(x, at) == KindAt(y, at) <==> HeldAt(a.prefix, a.members, at) == HeldAt(b.prefix, b.members, at) {
      KindIsHeld(hash, a.prefix, a.members, x, at);
      KindIsHeld(hash, b.prefix, b.members, y, at);
      if KindAt(x, at) == KindAt(y, at) {
        SameKindSameHeld(hash, a, b, at);
      }
    }
  }

  /** Two accepted archives have one tree id exactly when they have the same directories, and the same files and symlinks
      with the same modes and payloads, at the same paths; whatever their order, their prefixes and what they spell out.
      The only exception would be a collision among the byte strings hashed for the two. */
  lemma OneIdOneContents(hash: Hash, n: nat, a: Archive, b: Archive)
    requires FixedLength(hash, n)
    requires Accepted(hash, a.prefix, a.members, a.length) && Accepted(hash, b.prefix, b.members, b.length)
    requires CollisionFree(hash, TrieOf(hash, n, a), TrieOf(hash, n, b)) && BlobsCollideNot(hash, a.members, b.members)
    ensures TreeId(hash, TrieOf(hash, n, a)) == TreeId(hash, TrieOf(hash, n, b)) <==> SameContents(a, b)
  {
    hide TrieOf, TreeId, CollisionFree, SameShape, SameContents, Describes, BlobsCollideNot;
    OneIdOneShape(hash, n, TrieOf(hash, n, a), TrieOf(hash, n, b));
    SameShapeSameContents(hash, a, b, TrieOf(hash, n, a), TrieOf(hash, n, b));
  }
}
