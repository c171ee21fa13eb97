/**
 The shared store of firmware objects, filled by OCI imports and Git fetches that may run at the same
 time and may be stopped anywhere. A writer first checks whether an object, or at the end of a
 fetch the tree of its slot and revision, is there and later moves its own copy into place, so
 another writer can come in between. For objects that is harmless; for trees it is not.
 */
module FirmwareStore {
  import opened Bytes

  /** A firmware file or symbolic link of a Git revision. */
  datatype Item = Regular(path: string, content: bytes) | Symlink(path: string, target: string)

  /** What a path of a materialised tree points to. */
  datatype Entry = Object(name: string) | Elsewhere(target: string)

  /** The files and links of a directory, by path. */
  type Tree = map<string, Entry>

  /** Where a fetch publishes its tree: below the slot, under the revision. */
  datatype Key = Key(slot: nat, revision: nat) {
    predicate InKnownSlot() {
      slot == 101 || slot == 102
    }
  }

  /** The digest of fs-verity, and the files of each Git revision. */
  datatype World = World(digest: bytes -> string, revision: nat -> seq<Item>)

  predicate IsDigest(d: string) {
    |d| == 64 && forall i :: 0 <= i < |d| ==> d[i] != '/'
  }

  ghost predicate Digests(w: World) {
    forall c :: IsDigest(w.digest(c))
  }

  /** A path with its first slash removed. */
  function Unslashed(path: string): string {
    if path == "" then "" else if path[0] == '/' then path[1..] else [path[0]] + Unslashed(path[1..])
  }

  /** Where the Git fetch puts an object: two digits, a slash and the rest. */
  function ObjectPath(d: string): string {
    if |d| < 2 then d + "/" else d[..2] + "/" + d[2..]
  }

  lemma ObjectPathNames(d: string)
    requires IsDigest(d)
    ensures Unslashed(ObjectPath(d)) == d
    ensures ObjectPath(d)[2] == '/' && ObjectPath(d)[..2] == d[..2] && ObjectPath(d)[3..] == d[2..]
  {
    var p := ObjectPath(d);
    assert p == [d[0], d[1], '/'] + d[2..];
    assert p[1..] == [d[1], '/'] + d[2..];
    assert p[1..][1..] == ['/'] + d[2..];
    assert Unslashed(p[1..][1..]) == d[2..];
  }

  /** A `.` or `..` component. */
  predicate HasDots(path: string) {
    |path| >= 3 && ((path[0] == '/' && path[1] == '.'
                     && (path[2] == '/' || (path[2] == '.' && |path| > 3 && path[3] == '/')))
                    || HasDots(path[1..]))
  }

  predicate UnsafePath(path: string) {
    HasDots("/" + path + "/")
  }

  /** A whole component of a path. */
  predicate IsComponent(path: string, i: nat, j: nat) {
    i <= j <= |path| && (i == 0 || path[i - 1] == '/') && (j == |path| || path[j] == '/')
  }

  predicate DotsAt(s: string, k: nat) {
    && k + 2 < |s| && s[k] == '/' && s[k + 1] == '.'
    && (s[k + 2] == '/' || (s[k + 2] == '.' && k + 3 < |s| && s[k + 3] == '/'))
  }

  lemma {:induction false} HasDotsMeans(s: string)
    ensures HasDots(s) <==> exists k: nat :: DotsAt(s, k)
  {
    if |s| >= 3 {
      HasDotsMeans(s[1..]);
      assert HasDots(s) <==> DotsAt(s, 0) || HasDots(s[1..]);
      if k: nat :| DotsAt(s[1..], k) {
        assert DotsAt(s, k + 1);
      }
      if k: nat :| DotsAt(s, k) && k > 0 {
        assert DotsAt(s[1..], k - 1);
      }
    }
  }

  predicate DotComponent(path: string, i: nat, j: nat) {
    IsComponent(path, i, j) && (path[i..j] == "." || path[i..j] == "..")
  }

  lemma DotsAreComponent(path: string, s: string, k: nat)
    requires |s| == |path| + 2 && s[0] == '/' && s[|s| - 1] == '/' && s[1..|s| - 1] == path && DotsAt(s, k)
    ensures DotComponent(path, k, k + if s[k + 2] == '/' then 1 else 2)
  {
    var j := k + if s[k + 2] == '/' then 1 else 2;
    assert path[k] == s[k + 1] && (k > 0 ==> path[k - 1] == s[k]) && (j < |path| ==> path[j] == s[j + 1]);
    if j == k + 2 {
      assert path[k + 1] == s[k + 2];
    }
  }

  lemma ComponentIsDots(path: string, s: string, i: nat, j: nat)
    requires |s| == |path| + 2 && s[0] == '/' && s[|s| - 1] == '/' && s[1..|s| - 1] == path && DotComponent(path, i, j)
    ensures DotsAt(s, i)
  {
    assert path[i..j][0] == path[i] == s[i + 1];
    assert (i > 0 ==> path[i - 1] == s[i]) && (j < |path| ==> path[j] == s[j + 1]);
    if path[i..j] == ".." {
      assert path[i..j][1] == path[i + 1] == s[i + 2];
    }
  }

  /** A path is unsafe if and only if one of its components is `.` or `..`. */
  lemma UnsafeIff(path: string)
    ensures UnsafePath(path) <==> exists i: nat, j: nat :: DotComponent(path, i, j)
  {
    var s := "/" + path + "/";
    assert s[1..|s| - 1] == path;
    HasDotsMeans(s);
    if k: nat :| DotsAt(s, k) {
      DotsAreComponent(path, s, k);
    }
    if i: nat, j: nat :| DotComponent(path, i, j) {
      ComponentIsDots(path, s, i, j);
    }
  }

  /** A path inside a directory named `tree`. */
  function Under(path: string): (p: string)
    ensures |p| == 5 + |path| && p[5..] == path && "tree/" <= p
  {
    "tree/" + path
  }

  /** Nothing in the directory is called `tree`. */
  predicate Accepts(tree: Tree) {
    forall p :: p in tree ==> p != "tree" && !("tree/" <= p)
  }

  /** A directory into which another directory called `tree` was moved. */
  function Nested(tree: Tree, moved: Tree): Tree {
    tree + (map q | q in (set p | p in moved :: Under(p)) :: moved[q[5..]])
  }

  /**
   A writer: what it has still to do, whether it found what it is about to move in absent, and for
   a fetch the tree staged so far.
   */
  datatype Writer =
    | Oci(bundle: seq<(string, bytes)>, done: nat, absent: bool)
    | Git(key: Key, done: nat, missing: bool, staged: Tree)

  datatype State = State(objects: map<string, bytes>, trees: map<Key, Tree>, writers: map<nat, Writer>)

  /** A writer starts with any bundle, or any slot and revision, takes its next step, or stops where it is. */
  datatype Action =
    | StartOci(id: nat, bundle: seq<(string, bytes)>)
    | StartGit(id: nat, key: Key)
    | Advance(id: nat)
    | Stop(id: nat)

  function Put(s: State, id: nat, x: Writer): State {
    s.(writers := s.writers[id := x])
  }

  function Gone(s: State, id: nat): State {
    s.(writers := s.writers - {id})
  }

  function Stored(s: State, path: string, content: bytes): State {
    s.(objects := s.objects[path := content])
  }

  /** The next step of an OCI import: its next object is looked at, looked for in the store or moved there. */
  function OciStep(w: World, s: State, id: nat, x: Writer): State
    requires x.Oci?
  {
    if x.done >= |x.bundle| then Gone(s, id)
    else
      var path, content, rest := x.bundle[x.done].0, x.bundle[x.done].1, Oci(x.bundle, x.done + 1, false);
      if x.absent then Put(Stored(s, path, content), id, rest)
      else if |Unslashed(path)| != 64 || w.digest(content) != Unslashed(path) then Gone(s, id)
      else if path !in s.objects then Put(s, id, Oci(x.bundle, x.done, true))
      else if w.digest(s.objects[path]) == Unslashed(path) then Put(s, id, rest)
      else Gone(s, id)
  }

  /** Links the next path of the tree; a path that is already there is an error. */
  function Linked(s: State, id: nat, g: Writer, path: string, entry: Entry): State
    requires g.Git?
  {
    if path in g.staged then Gone(s, id)
    else Put(s, id, Git(g.key, g.done + 1, false, g.staged[path := entry]))
  }

  function EntryOf(w: World, item: Item): Entry {
    match item
    case Regular(_, content) => Object(ObjectPath(w.digest(content)))
    case Symlink(_, target) => Elsewhere(target)
  }

  /** `mv stage/tree trees/REV`: when that directory exists, the tree is moved into it, or the move fails. */
  function Published(s: State, key: Key, staged: Tree): State {
    if key !in s.trees then s.(trees := s.trees[key := staged])
    else if Accepts(s.trees[key]) then s.(trees := s.trees[key := Nested(s.trees[key], staged)])
    else s
  }

  /** The next step of a Git fetch: an item, or at the end the check whether to publish the tree, or its publication. */
  function GitStep(w: World, s: State, id: nat, g: Writer): State
    requires g.Git?
  {
    var items := w.revision(g.key.revision);
    if g.done >= |items| then
      if g.missing then Gone(Published(s, g.key, g.staged), id)
      else if g.key !in s.trees then Put(s, id, Git(g.key, g.done, true, g.staged))
      else Gone(s, id)
    else
      var item := items[g.done];
      if UnsafePath(item.path) then Gone(s, id)
      else
        match item
        case Symlink(path, target) => Linked(s, id, g, path, Elsewhere(target))
        case Regular(path, content) =>
          var target := ObjectPath(w.digest(content));
          if g.missing then Linked(Stored(s, target, content), id, g, path, Object(target))
          else if target !in s.objects then Put(s, id, Git(g.key, g.done, true, g.staged))
          else Linked(s, id, g, path, Object(target))
  }

  function Step(w: World, s: State, a: Action): State {
    match a
    case StartOci(id, bundle) => if id in s.writers then s else Put(s, id, Oci(bundle, 0, false))
    case StartGit(id, key) =>
      if id in s.writers || key.slot !in {101, 102} then s else Put(s, id, Git(key, 0, false, map[]))
    case Stop(id) => Gone(s, id)
    case Advance(id) =>
      if id !in s.writers then s
      else
        match s.writers[id]
        case Oci(_, _, _) => OciStep(w, s, id, s.writers[id])
        case Git(_, _, _, _) => GitStep(w, s, id, s.writers[id])
  }

  /** Any interleaving of writers, each of which may stop anywhere. */
  function Run(w: World, s: State, actions: seq<Action>): State {
    if actions == [] then s else Step(w, Run(w, s, actions[..|actions| - 1]), actions[|actions| - 1])
  }

  // The invariant.

  predicate Named(w: World, path: string, content: bytes) {
    w.digest(content) == Unslashed(path)
  }

  /** An object of a bundle that an import accepts: it is named by its digest, of 64 digits. */
  predicate Genuine(w: World, o: (string, bytes)) {
    |Unslashed(o.0)| == 64 && Named(w, o.0, o.1)
  }

  /** The first `n` objects of a bundle are genuine and in the store. */
  predicate Imported(w: World, objects: map<string, bytes>, bundle: seq<(string, bytes)>, n: nat) {
    n <= |bundle| && forall i :: 0 <= i < n ==> Genuine(w, bundle[i]) && bundle[i].0 in objects
  }

  /** Every object's name is the digest of its content. */
  predicate AllNamed(w: World, objects: map<string, bytes>) {
    forall p :: p in objects ==> Named(w, p, objects[p])
  }

  /** The item may be linked: its path is safe and its object, if it is a file, is in the store. */
  predicate Ready(w: World, objects: map<string, bytes>, item: Item) {
    !UnsafePath(item.path) && (item.Regular? ==> ObjectPath(w.digest(item.content)) in objects)
  }

  /** The tree is the first `n` items of a revision, with different paths, all of them ready, and nothing else. */
  predicate Materialised(w: World, objects: map<string, bytes>, items: seq<Item>, n: nat, tree: Tree) {
    if n == 0 then tree == map[]
    else
      && n <= |items| && Ready(w, objects, items[n - 1])
      && items[n - 1].path in tree && tree[items[n - 1].path] == EntryOf(w, items[n - 1])
      && Materialised(w, objects, items, n - 1, tree - {items[n - 1].path})
  }

  /** The tree of a revision, and nothing else. */
  predicate Plain(w: World, objects: map<string, bytes>, revision: nat, tree: Tree) {
    Materialised(w, objects, w.revision(revision), |w.revision(revision)|, tree)
  }

  /** The tree of a revision with a copy of itself inside, under the name `tree`. */
  ghost predicate Doubled(w: World, objects: map<string, bytes>, revision: nat, tree: Tree) {
    exists plain ::
      Plain(w, objects, revision, plain) && plain != map[] && Accepts(plain) && tree == Nested(plain, plain)
  }

  ghost predicate Sound(w: World, objects: map<string, bytes>, x: Writer) {
    match x
    case Oci(bundle, done, absent) =>
      Imported(w, objects, bundle, done) && (absent ==> done < |bundle| && Genuine(w, bundle[done]))
    case Git(key, done, _, staged) =>
      key.InKnownSlot() && Materialised(w, objects, w.revision(key.revision), done, staged)
  }

  ghost predicate AllSound(w: World, objects: map<string, bytes>, writers: map<nat, Writer>) {
    forall id :: id in writers ==> Sound(w, objects, writers[id])
  }

  ghost predicate Expected(w: World, objects: map<string, bytes>, revision: nat, tree: Tree) {
    Plain(w, objects, revision, tree) || Doubled(w, objects, revision, tree)
  }

  ghost predicate AllExpected(w: World, objects: map<string, bytes>, trees: map<Key, Tree>) {
    forall k :: k in trees ==> k.InKnownSlot() && Expected(w, objects, k.revision, trees[k])
  }

  ghost predicate Inv(w: World, s: State) {
    AllNamed(w, s.objects) && AllSound(w, s.objects, s.writers) && AllExpected(w, s.objects, s.trees)
  }

  /** One tree is part of another. */
  predicate PartOf(tree: Tree, whole: Tree) {
    forall p :: p in tree ==> p in whole && whole[p] == tree[p]
  }

  /** Objects stay, under content with the same digest; published trees stay, and so does every path in them. */
  predicate Keeps(w: World, s: State, t: State) {
    && (forall p :: p in s.objects ==> p in t.objects && w.digest(t.objects[p]) == w.digest(s.objects[p]))
    && (forall k :: k in s.trees ==> k in t.trees && PartOf(s.trees[k], t.trees[k]))
  }

  // Materialised trees.

  lemma {:induction false} MoreObjects(w: World, objects: map<string, bytes>, more: map<string, bytes>,
                                       items: seq<Item>, n: nat, tree: Tree)
    requires Materialised(w, objects, items, n, tree) && objects.Keys <= more.Keys
    ensures Materialised(w, more, items, n, tree)
  {
    if n > 0 {
      MoreObjects(w, objects, more, items, n - 1, tree - {items[n - 1].path});
    }
  }

  lemma {:induction false} SameTree(w: World, objects: map<string, bytes>, items: seq<Item>, n: nat, a: Tree, b: Tree)
    requires Materialised(w, objects, items, n, a) && Materialised(w, objects, items, n, b)
    ensures a == b
  {
    if n > 0 {
      var path := items[n - 1].path;
      SameTree(w, objects, items, n - 1, a - {path}, b - {path});
      assert a == (a - {path})[path := a[path]] && b == (b - {path})[path := b[path]];
    }
  }

  lemma {:induction false} TreeHasItems(w: World, objects: map<string, bytes>, items: seq<Item>, n: nat, tree: Tree,
                                        i: nat)
    requires Materialised(w, objects, items, n, tree) && i < n
    ensures n <= |items| && Ready(w, objects, items[i])
    ensures items[i].path in tree && tree[items[i].path] == EntryOf(w, items[i])
    decreases n
  {
    if i < n - 1 {
      TreeHasItems(w, objects, items, n - 1, tree - {items[n - 1].path}, i);
    }
  }

  lemma {:induction false} TreeHasNothingElse(w: World, objects: map<string, bytes>, items: seq<Item>, n: nat,
                                              tree: Tree, p: string)
    requires Materialised(w, objects, items, n, tree) && p in tree
    ensures exists i :: 0 <= i < n && i < |items| && items[i].path == p
    decreases n
  {
    if items[n - 1].path != p {
      TreeHasNothingElse(w, objects, items, n - 1, tree - {items[n - 1].path}, p);
    }
  }

  lemma {:induction false} NextItem(w: World, objects: map<string, bytes>, items: seq<Item>, n: nat, tree: Tree)
    requires Materialised(w, objects, items, n, tree)
    requires n < |items| && items[n].path !in tree && Ready(w, objects, items[n])
    ensures Materialised(w, objects, items, n + 1, tree[items[n].path := EntryOf(w, items[n])])
  {
    assert tree[items[n].path := EntryOf(w, items[n])] - {items[n].path} == tree;
  }

  lemma NestedKeeps(tree: Tree, moved: Tree)
    requires Accepts(tree)
    ensures PartOf(tree, Nested(tree, moved))
    ensures forall p :: p in moved ==> Under(p) in Nested(tree, moved) && Nested(tree, moved)[Under(p)] == moved[p]
    ensures moved == map[] ==> Nested(tree, moved) == tree
    ensures moved != map[] ==> !Accepts(Nested(tree, moved)) && Nested(tree, moved) != tree
  {
    if moved != map[] {
      var p :| p in moved;
      assert Under(p) in Nested(tree, moved) && Under(p) !in tree;
    }
  }

  /** A doubled tree does not take another, and is not the plain one. */
  lemma DoubledIsFull(w: World, objects: map<string, bytes>, revision: nat, tree: Tree)
    requires Doubled(w, objects, revision, tree)
    ensures !Accepts(tree) && !Plain(w, objects, revision, tree)
  {
    var plain :| Plain(w, objects, revision, plain) && plain != map[] && Accepts(plain) && tree == Nested(plain, plain);
    NestedKeeps(plain, plain);
    if Plain(w, objects, revision, tree) {
      SameTree(w, objects, w.revision(revision), |w.revision(revision)|, plain, tree);
    }
  }

  /** What a second move leaves: the doubled tree, or if there was nothing to move the tree as it was. */
  lemma SecondMove(w: World, objects: map<string, bytes>, revision: nat, tree: Tree, staged: Tree)
    requires Expected(w, objects, revision, tree) && Plain(w, objects, revision, staged) && Accepts(tree)
    ensures tree == staged && PartOf(tree, Nested(tree, staged))
    ensures if tree == map[] then Nested(tree, staged) == tree else Doubled(w, objects, revision, Nested(tree, staged))
  {
    if Doubled(w, objects, revision, tree) {
      DoubledIsFull(w, objects, revision, tree);
    }
    SameTree(w, objects, w.revision(revision), |w.revision(revision)|, tree, staged);
    NestedKeeps(tree, staged);
  }

  // Every step keeps the invariant.

  lemma SoundWithMore(w: World, objects: map<string, bytes>, more: map<string, bytes>, x: Writer)
    requires Sound(w, objects, x) && objects.Keys <= more.Keys
    ensures Sound(w, more, x)
  {
    if x.Git? {
      MoreObjects(w, objects, more, w.revision(x.key.revision), x.done, x.staged);
    }
  }

  lemma TreeWithMore(w: World, objects: map<string, bytes>, more: map<string, bytes>, revision: nat, tree: Tree)
    requires objects.Keys <= more.Keys
    ensures Plain(w, objects, revision, tree) ==> Plain(w, more, revision, tree)
    ensures Doubled(w, objects, revision, tree) ==> Doubled(w, more, revision, tree)
  {
    var items := w.revision(revision);
    if Plain(w, objects, revision, tree) {
      MoreObjects(w, objects, more, items, |items|, tree);
    }
    if Doubled(w, objects, revision, tree) {
      var plain :|
        Plain(w, objects, revision, plain) && plain != map[] && Accepts(plain) && tree == Nested(plain, plain);
      MoreObjects(w, objects, more, items, |items|, plain);
    }
  }

  lemma WritersWithMore(w: World, objects: map<string, bytes>, more: map<string, bytes>, writers: map<nat, Writer>)
    requires AllSound(w, objects, writers) && objects.Keys <= more.Keys
    ensures AllSound(w, more, writers)
  {
    forall id | id in writers
      ensures Sound(w, more, writers[id])
    {
      SoundWithMore(w, objects, more, writers[id]);
    }
  }

  lemma TreesWithMore(w: World, objects: map<string, bytes>, more: map<string, bytes>, trees: map<Key, Tree>)
    requires AllExpected(w, objects, trees) && objects.Keys <= more.Keys
    ensures AllExpected(w, more, trees)
  {
    forall k | k in trees
      ensures k.InKnownSlot() && Expected(w, more, k.revision, trees[k])
    {
      TreeWithMore(w, objects, more, k.revision, trees[k]);
    }
  }

  lemma StoringKeeps(w: World, s: State, path: string, content: bytes)
    requires Inv(w, s) && Named(w, path, content)
    ensures Inv(w, Stored(s, path, content)) && Keeps(w, s, Stored(s, path, content))
  {
    WritersWithMore(w, s.objects, s.objects[path := content], s.writers);
    TreesWithMore(w, s.objects, s.objects[path := content], s.trees);
  }

  lemma PuttingKeeps(w: World, s: State, id: nat, x: Writer)
    requires Inv(w, s) && Sound(w, s.objects, x)
    ensures Inv(w, Put(s, id, x)) && Keeps(w, s, Put(s, id, x))
  {}

  lemma GoingKeeps(w: World, s: State, id: nat)
    requires Inv(w, s)
    ensures Inv(w, Gone(s, id)) && Keeps(w, s, Gone(s, id))
  {}

  lemma LinkingKeeps(w: World, s: State, id: nat, g: Writer, item: Item)
    requires Inv(w, s) && g.Git? && Sound(w, s.objects, g) && g.done < |w.revision(g.key.revision)|
    requires item == w.revision(g.key.revision)[g.done] && Ready(w, s.objects, item)
    ensures var t := Linked(s, id, g, item.path, EntryOf(w, item)); Inv(w, t) && Keeps(w, s, t)
  {
    if item.path in g.staged {
      GoingKeeps(w, s, id);
    } else {
      NextItem(w, s.objects, w.revision(g.key.revision), g.done, g.staged);
      PuttingKeeps(w, s, id, Git(g.key, g.done + 1, false, g.staged[item.path := EntryOf(w, item)]));
    }
  }

  lemma OciKeeps(w: World, s: State, id: nat, x: Writer)
    requires Inv(w, s) && x.Oci? && Sound(w, s.objects, x)
    ensures Inv(w, OciStep(w, s, id, x)) && Keeps(w, s, OciStep(w, s, id, x))
  {
    GoingKeeps(w, s, id);
    if x.done < |x.bundle| {
      var o, rest := x.bundle[x.done], Oci(x.bundle, x.done + 1, false);
      if x.absent {
        StoringKeeps(w, s, o.0, o.1);
        PuttingKeeps(w, Stored(s, o.0, o.1), id, rest);
      } else if Genuine(w, o) {
        if o.0 in s.objects {
          PuttingKeeps(w, s, id, rest);
        } else {
          PuttingKeeps(w, s, id, Oci(x.bundle, x.done, true));
        }
      }
    }
  }

  lemma ReplacingKeeps(w: World, s: State, key: Key, tree: Tree)
    requires Inv(w, s) && key.InKnownSlot() && Expected(w, s.objects, key.revision, tree)
    requires key in s.trees ==> PartOf(s.trees[key], tree)
    ensures var t := s.(trees := s.trees[key := tree]); Inv(w, t) && Keeps(w, s, t)
  {}

  lemma PublishingKeeps(w: World, s: State, key: Key, staged: Tree)
    requires Inv(w, s) && key.InKnownSlot() && Plain(w, s.objects, key.revision, staged)
    ensures Inv(w, Published(s, key, staged)) && Keeps(w, s, Published(s, key, staged))
  {
    if key !in s.trees {
      ReplacingKeeps(w, s, key, staged);
    } else if Accepts(s.trees[key]) {
      SecondMove(w, s.objects, key.revision, s.trees[key], staged);
      ReplacingKeeps(w, s, key, Nested(s.trees[key], staged));
    }
  }

  lemma KeepsThen(w: World, s: State, t: State, u: State)
    requires Keeps(w, s, t) && Keeps(w, t, u)
    ensures Keeps(w, s, u)
  {}

  lemma GitKeeps(w: World, s: State, id: nat, g: Writer)
    requires Digests(w) && Inv(w, s) && g.Git? && Sound(w, s.objects, g)
    ensures Inv(w, GitStep(w, s, id, g)) && Keeps(w, s, GitStep(w, s, id, g))
  {
    var items := w.revision(g.key.revision);
    GoingKeeps(w, s, id);
    if g.done >= |items| {
      FinishKeeps(w, s, id, g);
    } else if !UnsafePath(items[g.done].path) {
      var item := items[g.done];
      if item.Symlink? {
        LinkingKeeps(w, s, id, g, item);
      } else {
        FetchKeeps(w, s, id, g, item);
      }
    }
  }

  lemma FinishKeeps(w: World, s: State, id: nat, g: Writer)
    requires Inv(w, s) && g.Git? && Sound(w, s.objects, g) && g.done >= |w.revision(g.key.revision)|
    ensures Inv(w, GitStep(w, s, id, g)) && Keeps(w, s, GitStep(w, s, id, g))
  {
    if g.missing {
      var t := Published(s, g.key, g.staged);
      PublishingKeeps(w, s, g.key, g.staged);
      GoingKeeps(w, t, id);
      KeepsThen(w, s, t, Gone(t, id));
    } else {
      GoingKeeps(w, s, id);
      PuttingKeeps(w, s, id, Git(g.key, g.done, true, g.staged));
    }
  }

  lemma FetchKeeps(w: World, s: State, id: nat, g: Writer, item: Item)
    requires Digests(w) && Inv(w, s) && g.Git? && Sound(w, s.objects, g) && g.done < |w.revision(g.key.revision)|
    requires item == w.revision(g.key.revision)[g.done] && item.Regular? && !UnsafePath(item.path)
    ensures Inv(w, GitStep(w, s, id, g)) && Keeps(w, s, GitStep(w, s, id, g))
  {
    var target := ObjectPath(w.digest(item.content));
    if g.missing {
      var t := Stored(s, target, item.content);
      ObjectPathNames(w.digest(item.content));
      StoringKeeps(w, s, target, item.content);
      SoundWithMore(w, s.objects, t.objects, g);
      LinkingKeeps(w, t, id, g, item);
      KeepsThen(w, s, t, GitStep(w, s, id, g));
    } else if target !in s.objects {
      PuttingKeeps(w, s, id, Git(g.key, g.done, true, g.staged));
    } else {
      LinkingKeeps(w, s, id, g, item);
    }
  }

  lemma StepKeeps(w: World, s: State, a: Action)
    requires Digests(w) && Inv(w, s)
    ensures Inv(w, Step(w, s, a)) && Keeps(w, s, Step(w, s, a))
  {
    match a
    case StartOci(id, bundle) => PuttingKeeps(w, s, id, Oci(bundle, 0, false));
    case StartGit(id, key) =>
      if key.slot in {101, 102} {
        PuttingKeeps(w, s, id, Git(key, 0, false, map[]));
      }
    case Stop(id) => GoingKeeps(w, s, id);
    case Advance(id) =>
      if id in s.writers {
        var x := s.writers[id];
        assert Sound(w, s.objects, x);
        if x.Oci? {
          OciKeeps(w, s, id, x);
        } else {
          GitKeeps(w, s, id, x);
        }
      }
  }

  /**
   Over every interleaving of imports and fetches: every object's name is the digest of its content,
   no object disappears or gets content with another digest, and a published tree keeps every path it
   has: it is its revision, or its revision with a copy of itself inside.
   */
  lemma {:induction false} StoreKept(w: World, s: State, actions: seq<Action>)
    requires Digests(w) && Inv(w, s)
    ensures Inv(w, Run(w, s, actions)) && Keeps(w, s, Run(w, s, actions))
    decreases |actions|
  {
    if actions != [] {
      var before := actions[..|actions| - 1];
      StoreKept(w, s, before);
      StepKeeps(w, Run(w, s, before), actions[|actions| - 1]);
      KeepsThen(w, s, Run(w, s, before), Run(w, s, actions));
    }
  }

  const EMPTY := State(map[], map[], map[])

  predicate Collide(w: World, a: bytes, b: bytes) {
    a != b && w.digest(a) == w.digest(b)
  }

  /** The tree has this item as Git has it. */
  predicate Faithful(w: World, s: State, tree: Tree, item: Item) {
    && item.path in tree && !UnsafePath(item.path)
    && match item
       case Symlink(path, target) => tree[path] == Elsewhere(target)
       case Regular(path, content) =>
         && tree[path].Object? && tree[path].name in s.objects
         && (s.objects[tree[path].name] == content || Collide(w, s.objects[tree[path].name], content))
  }

  lemma FaithfulItem(w: World, s: State, revision: nat, tree: Tree, i: nat)
    requires Digests(w) && AllNamed(w, s.objects) && Plain(w, s.objects, revision, tree) && i < |w.revision(revision)|
    ensures Faithful(w, s, tree, w.revision(revision)[i])
  {
    var items := w.revision(revision);
    TreeHasItems(w, s.objects, items, |items|, tree, i);
    if items[i].Regular? {
      var name := ObjectPath(w.digest(items[i].content));
      ObjectPathNames(w.digest(items[i].content));
      assert Named(w, name, s.objects[name]);
    }
  }

  lemma PublishedFaithful(w: World, s: State, key: Key, i: nat)
    requires Digests(w) && Inv(w, s) && key in s.trees && i < |w.revision(key.revision)|
    ensures Faithful(w, s, s.trees[key], w.revision(key.revision)[i])
  {
    var tree := s.trees[key];
    assert Expected(w, s.objects, key.revision, tree);
    if Plain(w, s.objects, key.revision, tree) {
      FaithfulItem(w, s, key.revision, tree, i);
    } else {
      var plain :|
        Plain(w, s.objects, key.revision, plain) && plain != map[] && Accepts(plain) && tree == Nested(plain, plain);
      FaithfulItem(w, s, key.revision, plain, i);
      NestedKeeps(plain, plain);
    }
  }

  /**
   In every run from the empty store, a published tree has every path of its Git revision, none of them
   unsafe; symbolic links are as in Git, and every regular file leads to an object with exactly
   the content of its Git blob, unless the digest collides.
   */
  lemma TreesHaveRevisions(w: World, actions: seq<Action>, key: Key, i: nat)
    requires Digests(w) && key in Run(w, EMPTY, actions).trees && i < |w.revision(key.revision)|
    ensures key.slot in {101, 102}
    ensures var s := Run(w, EMPTY, actions); Faithful(w, s, s.trees[key], w.revision(key.revision)[i])
  {
    StoreKept(w, EMPTY, actions);
    PublishedFaithful(w, Run(w, EMPTY, actions), key, i);
  }

  /** An object's content changes only if the digest collides. */
  lemma ObjectsNeverChange(w: World, first: seq<Action>, later: seq<Action>, path: string)
    requires Digests(w) && path in Run(w, EMPTY, first).objects
    ensures var s, t := Run(w, EMPTY, first), Run(w, Run(w, EMPTY, first), later);
      path in t.objects && (t.objects[path] == s.objects[path] || Collide(w, t.objects[path], s.objects[path]))
  {
    StoreKept(w, EMPTY, first);
    StoreKept(w, Run(w, EMPTY, first), later);
  }

  // Imports import and fetches publish.

  /** How often a writer takes a step. */
  function Turns(actions: seq<Action>, id: nat): nat {
    if actions == [] then 0
    else Turns(actions[..|actions| - 1], id) + if actions[|actions| - 1] == Advance(id) then 1 else 0
  }

  /** How far a writer has come: two steps for an object, one to look for it and one to move it. */
  function Progress(x: Writer): nat {
    match x
    case Oci(_, done, absent) => 2 * done + if absent then 1 else 0
    case Git(_, done, missing, _) => 2 * done + if missing then 1 else 0
  }

  /** Only its own steps and its being stopped touch a writer. */
  lemma OthersLeaveAlone(w: World, s: State, a: Action, id: nat)
    requires id in s.writers && a != Advance(id) && a != Stop(id)
    ensures id in Step(w, s, a).writers && Step(w, s, a).writers[id] == s.writers[id]
  {
    if a.Advance? && a.id in s.writers {
      OneStepOnly(w, s, a.id, s.writers[a.id]);
    }
  }

  lemma OneStepOnly(w: World, s: State, id: nat, x: Writer)
    ensures x.Oci? ==> OciStep(w, s, id, x).writers - {id} == s.writers - {id}
    ensures x.Git? ==> GitStep(w, s, id, x).writers - {id} == s.writers - {id}
  {}

  /** The first `k` objects are in the store, or the import is still at work and has made this much progress. */
  predicate ImportOnCourse(w: World, s: State, id: nat, bundle: seq<(string, bytes)>, k: nat, turns: nat) {
    || Imported(w, s.objects, bundle, k)
    || (id in s.writers && s.writers[id].Oci? && s.writers[id].bundle == bundle && s.writers[id].done < k
        && Progress(s.writers[id]) >= turns)
  }

  lemma ImportTurn(w: World, s: State, id: nat, k: nat)
    requires Inv(w, s) && id in s.writers && s.writers[id].Oci? && s.writers[id].done < k <= |s.writers[id].bundle|
    requires forall i :: 0 <= i < k ==> Genuine(w, s.writers[id].bundle[i])
    ensures var x, t := s.writers[id], Step(w, s, Advance(id));
      && id in t.writers && t.writers[id].Oci? && t.writers[id].bundle == x.bundle
      && Progress(t.writers[id]) > Progress(x)
  {
    assert Sound(w, s.objects, s.writers[id]);
  }

  lemma KeptImported(w: World, s: State, t: State, bundle: seq<(string, bytes)>, k: nat)
    requires Keeps(w, s, t) && Imported(w, s.objects, bundle, k)
    ensures Imported(w, t.objects, bundle, k)
  {}

  lemma ImportStep(w: World, s: State, a: Action, id: nat, bundle: seq<(string, bytes)>, k: nat, turns: nat)
    requires Digests(w) && Inv(w, s) && a != Stop(id) && ImportOnCourse(w, s, id, bundle, k, turns)
    requires k <= |bundle| && forall i :: 0 <= i < k ==> Genuine(w, bundle[i])
    ensures ImportOnCourse(w, Step(w, s, a), id, bundle, k, turns + if a == Advance(id) then 1 else 0)
  {
    var t := Step(w, s, a);
    StepKeeps(w, s, a);
    if Imported(w, s.objects, bundle, k) {
      KeptImported(w, s, t, bundle, k);
    } else {
      if a == Advance(id) {
        ImportTurn(w, s, id, k);
      } else {
        OthersLeaveAlone(w, s, a, id);
      }
      assert Sound(w, t.objects, t.writers[id]);
    }
  }

  lemma {:induction false} ImportCourse(w: World, s: State, id: nat, bundle: seq<(string, bytes)>, k: nat,
                                        actions: seq<Action>)
    requires Digests(w) && Inv(w, s) && id in s.writers && s.writers[id] == Oci(bundle, 0, false)
    requires k <= |bundle| && forall i :: 0 <= i < k ==> Genuine(w, bundle[i])
    requires Stop(id) !in actions
    ensures ImportOnCourse(w, Run(w, s, actions), id, bundle, k, Turns(actions, id))
    decreases |actions|
  {
    if actions != [] {
      var before, a := actions[..|actions| - 1], actions[|actions| - 1];
      ImportCourse(w, s, id, bundle, k, before);
      StoreKept(w, s, before);
      ImportStep(w, Run(w, s, before), a, id, bundle, k, Turns(before, id));
    }
  }

  /** The object is in the store with this content, unless the digest collides. */
  predicate Holds(w: World, s: State, path: string, content: bytes) {
    path in s.objects && (s.objects[path] == content || Collide(w, s.objects[path], content))
  }

  /**
   An import that is not stopped imports, whatever else goes on: after two turns for each of the first
   `k` objects of its bundle, if these are genuine, each of them is in the store under its digest.
   */
  lemma ImportImports(w: World, s: State, id: nat, bundle: seq<(string, bytes)>, k: nat, actions: seq<Action>, i: nat)
    requires Digests(w) && Inv(w, s) && id in s.writers && s.writers[id] == Oci(bundle, 0, false)
    requires i < k <= |bundle| && forall j :: 0 <= j < k ==> Genuine(w, bundle[j])
    requires Stop(id) !in actions && Turns(actions, id) >= 2 * k
    ensures Holds(w, Run(w, s, actions), bundle[i].0, bundle[i].1)
  {
    var t := Run(w, s, actions);
    ImportCourse(w, s, id, bundle, k, actions);
    StoreKept(w, s, actions);
    assert Named(w, bundle[i].0, t.objects[bundle[i].0]);
  }

  /**
   In any run, what an import is past is genuine and in the store; so one that has come to its end has all of
   its bundle there, and one with an object that is not genuine never gets past that.
   */
  lemma PassedIsImported(w: World, actions: seq<Action>, id: nat, i: nat)
    requires Digests(w) && id in Run(w, EMPTY, actions).writers && Run(w, EMPTY, actions).writers[id].Oci?
    requires var x := Run(w, EMPTY, actions).writers[id]; i < x.done
    ensures var s := Run(w, EMPTY, actions);
      var x := s.writers[id];
      x.done <= |x.bundle| && Genuine(w, x.bundle[i]) && Holds(w, s, x.bundle[i].0, x.bundle[i].1)
  {
    StoreKept(w, EMPTY, actions);
    var s := Run(w, EMPTY, actions);
    assert Sound(w, s.objects, s.writers[id]);
    assert Named(w, s.writers[id].bundle[i].0, s.objects[s.writers[id].bundle[i].0]);
  }

  /** A revision that a fetch accepts: no path is unsafe, and none comes twice. */
  predicate Fetchable(items: seq<Item>) {
    && (forall i :: 0 <= i < |items| ==> !UnsafePath(items[i].path))
    && (forall i, j :: 0 <= i < j < |items| ==> items[i].path != items[j].path)
  }

  /** The tree is published, or the fetch is still at work and has made this much progress. */
  predicate FetchOnCourse(w: World, s: State, id: nat, key: Key, turns: nat) {
    || key in s.trees
    || (id in s.writers && s.writers[id].Git? && s.writers[id].key == key && Progress(s.writers[id]) >= turns)
  }

  lemma NotYetLinked(w: World, objects: map<string, bytes>, items: seq<Item>, n: nat, staged: Tree)
    requires Materialised(w, objects, items, n, staged) && Fetchable(items) && n < |items|
    ensures items[n].path !in staged
  {
    if items[n].path in staged {
      TreeHasNothingElse(w, objects, items, n, staged, items[n].path);
    }
  }

  lemma FetchTurn(w: World, s: State, id: nat)
    requires Inv(w, s) && id in s.writers && s.writers[id].Git? && Fetchable(w.revision(s.writers[id].key.revision))
    ensures var g, t := s.writers[id], Step(w, s, Advance(id));
      FetchOnCourse(w, t, id, g.key, Progress(g) + 1)
  {
    var g := s.writers[id];
    assert Sound(w, s.objects, g);
    if g.done < |w.revision(g.key.revision)| {
      NotYetLinked(w, s.objects, w.revision(g.key.revision), g.done, g.staged);
    }
  }

  lemma FetchStep(w: World, s: State, a: Action, id: nat, key: Key, turns: nat)
    requires Digests(w) && Inv(w, s) && a != Stop(id) && FetchOnCourse(w, s, id, key, turns)
    requires Fetchable(w.revision(key.revision))
    ensures FetchOnCourse(w, Step(w, s, a), id, key, turns + if a == Advance(id) then 1 else 0)
  {
    StepKeeps(w, s, a);
    if key !in s.trees {
      if a == Advance(id) {
        FetchTurn(w, s, id);
      } else {
        OthersLeaveAlone(w, s, a, id);
      }
    }
  }

  lemma {:induction false} FetchCourse(w: World, s: State, id: nat, key: Key, actions: seq<Action>)
    requires Digests(w) && Inv(w, s) && id in s.writers && s.writers[id] == Git(key, 0, false, map[])
    requires Fetchable(w.revision(key.revision)) && Stop(id) !in actions
    ensures FetchOnCourse(w, Run(w, s, actions), id, key, Turns(actions, id))
    decreases |actions|
  {
    if actions != [] {
      var before, a := actions[..|actions| - 1], actions[|actions| - 1];
      FetchCourse(w, s, id, key, before);
      StoreKept(w, s, before);
      FetchStep(w, Run(w, s, before), a, id, key, Turns(before, id));
    }
  }

  lemma FetchDone(w: World, s: State, id: nat, key: Key, turns: nat)
    requires Inv(w, s) && FetchOnCourse(w, s, id, key, turns) && turns >= 2 * |w.revision(key.revision)| + 2
    ensures key in s.trees
  {
    if id in s.writers {
      assert Sound(w, s.objects, s.writers[id]);
    }
  }

  /**
   A fetch of an acceptable revision that is not stopped publishes it, whatever else goes on: after two turns
   for each item and two more, the tree is there, and every file of it leads to its object in the store.
   */
  lemma FetchPublishes(w: World, s: State, id: nat, key: Key, actions: seq<Action>)
    requires Digests(w) && Inv(w, s) && id in s.writers && s.writers[id] == Git(key, 0, false, map[])
    requires Fetchable(w.revision(key.revision))
    requires Stop(id) !in actions && Turns(actions, id) >= 2 * |w.revision(key.revision)| + 2
    ensures var t, items := Run(w, s, actions), w.revision(key.revision);
      key in t.trees && forall i :: 0 <= i < |items| ==> Faithful(w, t, t.trees[key], items[i])
  {
    var t, items := Run(w, s, actions), w.revision(key.revision);
    FetchCourse(w, s, id, key, actions);
    StoreKept(w, s, actions);
    FetchDone(w, t, id, key, Turns(actions, id));
    forall i | 0 <= i < |items|
      ensures Faithful(w, t, t.trees[key], items[i])
    {
      PublishedFaithful(w, t, key, i);
    }
  }

  // When a published tree stays what it is.

  /** The writer is between its check that the tree is absent and its move of the tree. */
  predicate Pending(w: World, s: State, id: nat, key: Key) {
    && id in s.writers && s.writers[id].Git? && s.writers[id].key == key && s.writers[id].missing
    && s.writers[id].done >= |w.revision(key.revision)|
  }

  /** A directory into which a move would put something new. */
  predicate Receptive(tree: Tree) {
    tree != map[] && Accepts(tree)
  }

  /** The action moves a second tree into a published one. */
  predicate Nests(w: World, s: State, a: Action, key: Key) {
    a.Advance? && Pending(w, s, a.id, key) && key in s.trees && Receptive(s.trees[key])
  }

  /** Only publication touches trees. */
  lemma OtherStepsLeaveTrees(w: World, s: State, id: nat, x: Writer)
    ensures x.Oci? ==> OciStep(w, s, id, x).trees == s.trees
    ensures x.Git? && !(x.done >= |w.revision(x.key.revision)| && x.missing) ==> GitStep(w, s, id, x).trees == s.trees
  {}

  /** A step changes a published tree if and only if it moves a second one into it. */
  lemma StepOnTree(w: World, s: State, a: Action, key: Key)
    requires Inv(w, s) && key in s.trees
    ensures var t := Step(w, s, a);
      && key in t.trees
      && if Nests(w, s, a, key) then Doubled(w, t.objects, key.revision, t.trees[key])
         else t.trees[key] == s.trees[key]
  {
    if a.Advance? && a.id in s.writers {
      var x := s.writers[a.id];
      assert Sound(w, s.objects, x);
      OtherStepsLeaveTrees(w, s, a.id, x);
      if x.Git? && x.done >= |w.revision(x.key.revision)| && x.missing {
        PublicationOnTree(w, s, x, key);
      }
    }
  }

  lemma PublicationOnTree(w: World, s: State, g: Writer, key: Key)
    requires Inv(w, s) && key in s.trees && g.Git? && Sound(w, s.objects, g) && g.done >= |w.revision(g.key.revision)|
    ensures var t := Published(s, g.key, g.staged);
      && key in t.trees && t.objects == s.objects
      && if g.key == key && Receptive(s.trees[key]) then Doubled(w, t.objects, key.revision, t.trees[key])
         else t.trees[key] == s.trees[key]
  {
    if g.key == key && Accepts(s.trees[key]) {
      SecondMove(w, s.objects, key.revision, s.trees[key], g.staged);
    }
  }

  /** No action of the run moved a second tree into the published one. */
  predicate Undisturbed(w: World, actions: seq<Action>, key: Key) {
    actions != [] ==>
      var before := actions[..|actions| - 1];
      Undisturbed(w, before, key) && !Nests(w, Run(w, EMPTY, before), actions[|actions| - 1], key)
  }

  lemma {:induction false} UnpublishedUndisturbed(w: World, actions: seq<Action>, key: Key)
    requires Digests(w) && key !in Run(w, EMPTY, actions).trees
    ensures Undisturbed(w, actions, key)
    decreases |actions|
  {
    if actions != [] {
      var before := actions[..|actions| - 1];
      StoreKept(w, EMPTY, before);
      StepKeeps(w, Run(w, EMPTY, before), actions[|actions| - 1]);
      UnpublishedUndisturbed(w, before, key);
    }
  }

  /** The published tree is its revision, or if not `calm` its revision with a copy inside. */
  ghost predicate TreeIs(w: World, s: State, key: Key, calm: bool) {
    && key in s.trees
    && if calm then Plain(w, s.objects, key.revision, s.trees[key])
       else Doubled(w, s.objects, key.revision, s.trees[key])
  }

  lemma TreeStep(w: World, s: State, a: Action, key: Key, calm: bool)
    requires Digests(w) && Inv(w, s) && TreeIs(w, s, key, calm)
    ensures TreeIs(w, Step(w, s, a), key, calm && !Nests(w, s, a, key))
  {
    StepOnTree(w, s, a, key);
    StepKeeps(w, s, a);
    TreeWithMore(w, s.objects, Step(w, s, a).objects, key.revision, s.trees[key]);
    if !calm {
      DoubledIsFull(w, s.objects, key.revision, s.trees[key]);
    }
  }

  lemma {:induction false} PlainIffUndisturbed(w: World, actions: seq<Action>, key: Key)
    requires Digests(w) && key in Run(w, EMPTY, actions).trees
    ensures TreeIs(w, Run(w, EMPTY, actions), key, Undisturbed(w, actions, key))
    decreases |actions|
  {
    if actions != [] {
      var before, a := actions[..|actions| - 1], actions[|actions| - 1];
      var s := Run(w, EMPTY, before);
      StoreKept(w, EMPTY, before);
      if key in s.trees {
        PlainIffUndisturbed(w, before, key);
        TreeStep(w, s, a, key, Undisturbed(w, before, key));
      } else {
        UnpublishedUndisturbed(w, before, key);
        FirstPublication(w, s, a, key);
      }
    }
  }

  lemma FirstPublication(w: World, s: State, a: Action, key: Key)
    requires Inv(w, s) && key !in s.trees && key in Step(w, s, a).trees
    ensures var t := Step(w, s, a); Plain(w, t.objects, key.revision, t.trees[key])
  {
    var g := s.writers[a.id];
    assert Sound(w, s.objects, g);
    OtherStepsLeaveTrees(w, s, a.id, g);
    assert g.Git? && g.done >= |w.revision(g.key.revision)| && g.missing;
  }

  /** The tree has exactly the paths of the revision. */
  ghost predicate HasExactly(items: seq<Item>, tree: Tree) {
    forall p :: p in tree <==> exists i :: 0 <= i < |items| && items[i].path == p
  }

  lemma PlainHasExactly(w: World, objects: map<string, bytes>, revision: nat, tree: Tree)
    requires Plain(w, objects, revision, tree)
    ensures HasExactly(w.revision(revision), tree)
  {
    var items := w.revision(revision);
    forall i | 0 <= i < |items|
      ensures items[i].path in tree
    {
      TreeHasItems(w, objects, items, |items|, tree, i);
    }
    forall p | p in tree
      ensures exists i :: 0 <= i < |items| && items[i].path == p
    {
      TreeHasNothingElse(w, objects, items, |items|, tree, p);
    }
  }

  lemma DoubledHasMore(w: World, objects: map<string, bytes>, revision: nat, tree: Tree)
    requires Doubled(w, objects, revision, tree)
    ensures !HasExactly(w.revision(revision), tree)
  {
    var plain :| Plain(w, objects, revision, plain) && plain != map[] && Accepts(plain) && tree == Nested(plain, plain);
    PlainHasExactly(w, objects, revision, plain);
    NestedKeeps(plain, plain);
    var p :| p in plain;
    assert Under(p) in tree && Under(p) !in plain;
  }

  /**
   In every run from the empty store, a published tree has exactly the paths of its revision if and
   only if no other fetch of that slot and revision, past its check when the tree was published, then
   moved its own tree. (A tree with something called `tree` at its top, or with nothing, takes no other.)
   */
  lemma TreeIsRevisionIff(w: World, actions: seq<Action>, key: Key)
    requires Digests(w) && key in Run(w, EMPTY, actions).trees
    ensures HasExactly(w.revision(key.revision), Run(w, EMPTY, actions).trees[key]) <==> Undisturbed(w, actions, key)
  {
    PlainIffUndisturbed(w, actions, key);
    var s := Run(w, EMPTY, actions);
    if Undisturbed(w, actions, key) {
      PlainHasExactly(w, s.objects, key.revision, s.trees[key]);
    } else {
      DoubledHasMore(w, s.objects, key.revision, s.trees[key]);
    }
  }

  /** No move into the tree is under way that could change it. */
  ghost predicate Quiet(w: World, s: State, key: Key) {
    key in s.trees && (Receptive(s.trees[key]) ==> forall id :: !Pending(w, s, id, key))
  }

  lemma QuietStep(w: World, s: State, a: Action, key: Key)
    requires Inv(w, s) && Quiet(w, s, key)
    ensures Quiet(w, Step(w, s, a), key) && Step(w, s, a).trees[key] == s.trees[key]
  {
    StepOnTree(w, s, a, key);
    forall id | Pending(w, Step(w, s, a), id, key)
      ensures Pending(w, s, id, key)
    {
      NoNewPending(w, s, a, id, key);
    }
  }

  /** Once a tree is there, no further fetch of it gets past the check. */
  lemma NoNewPending(w: World, s: State, a: Action, id: nat, key: Key)
    requires key in s.trees && Pending(w, Step(w, s, a), id, key)
    ensures Pending(w, s, id, key)
  {
    if a.Advance? && a.id in s.writers && s.writers[a.id].Git? && a.id == id {
      NotPendingAfter(w, s, id, s.writers[id], key);
    }
  }

  lemma NotPendingAfter(w: World, s: State, id: nat, g: Writer, key: Key)
    requires key in s.trees && g.Git? && id in s.writers && s.writers[id] == g
    ensures !Pending(w, GitStep(w, s, id, g), id, key)
  {}

  lemma {:induction false} QuietRun(w: World, s: State, later: seq<Action>, key: Key)
    requires Digests(w) && Inv(w, s) && Quiet(w, s, key)
    ensures Quiet(w, Run(w, s, later), key) && Run(w, s, later).trees[key] == s.trees[key]
    decreases |later|
  {
    if later != [] {
      var before := later[..|later| - 1];
      QuietRun(w, s, before, key);
      StoreKept(w, s, before);
      QuietStep(w, Run(w, s, before), later[|later| - 1], key);
    }
  }

  predicate SameAfter(w: World, s: State, later: seq<Action>, key: Key) {
    key in s.trees && key in Run(w, s, later).trees && Run(w, s, later).trees[key] == s.trees[key]
  }

  /**
   A published tree stays as it is, whatever is done later, if and only if no other fetch of that slot
   and revision is between its check and its move, or the tree takes no other.
   */
  lemma TreeStaysIff(w: World, s: State, key: Key)
    requires Digests(w) && Inv(w, s) && key in s.trees
    ensures (forall later :: SameAfter(w, s, later, key)) <==> Quiet(w, s, key)
  {
    if Quiet(w, s, key) {
      forall later
        ensures SameAfter(w, s, later, key)
      {
        QuietRun(w, s, later, key);
      }
    } else {
      var id :| Pending(w, s, id, key);
      StepOnTree(w, s, Advance(id), key);
      StepKeeps(w, s, Advance(id));
      DoubledIsFull(w, Step(w, s, Advance(id)).objects, key.revision, Step(w, s, Advance(id)).trees[key]);
      RunOne(w, s, Advance(id));
      assert !SameAfter(w, s, [Advance(id)], key);
    }
  }

  lemma RunOne(w: World, s: State, a: Action)
    ensures Run(w, s, [a]) == Step(w, s, a)
  {
    assert [a][..0] == [];
    assert Run(w, s, [a][..0]) == s;
  }

  // The interleaving that fails.

  lemma RunThen(w: World, s: State, actions: seq<Action>, a: Action)
    ensures Run(w, s, actions + [a]) == Step(w, Run(w, s, actions), a)
  {
    assert (actions + [a])[..|actions|] == actions;
  }

  /** An action of one writer, then an action of the other. */
  lemma RunBoth(w: World, s: State, actions: seq<Action>, a: Action, b: Action)
    ensures Run(w, s, actions + [a] + [b]) == Step(w, Step(w, Run(w, s, actions), a), b)
  {
    RunThen(w, s, actions, a);
    RunThen(w, s, actions + [a], b);
  }

  const ONE_LINK: Tree := map["a" := Elsewhere("b")]

  lemma LinkStep(w: World, s: State, id: nat, key: Key)
    requires w.revision(key.revision) == [Symlink("a", "b")]
    requires id in s.writers && s.writers[id] == Git(key, 0, false, map[])
    ensures Step(w, s, Advance(id)) == Put(s, id, Git(key, 1, false, ONE_LINK))
  {
    var p := "/" + "a" + "/";
    assert p[1] == 'a' && |p[1..]| == 2 && !HasDots(p[1..]);
    assert !UnsafePath("a");
  }

  lemma CheckStep(w: World, s: State, id: nat, key: Key)
    requires w.revision(key.revision) == [Symlink("a", "b")]
    requires id in s.writers && s.writers[id] == Git(key, 1, false, ONE_LINK)
    ensures key !in s.trees ==> Step(w, s, Advance(id)) == Put(s, id, Git(key, 1, true, ONE_LINK))
  {}

  lemma MoveStep(w: World, s: State, id: nat, key: Key)
    requires w.revision(key.revision) == [Symlink("a", "b")]
    requires id in s.writers && s.writers[id] == Git(key, 1, true, ONE_LINK)
    ensures Step(w, s, Advance(id)) == Gone(Published(s, key, ONE_LINK), id)
  {}

  /**
   Two fetches of one revision into one slot both link, both find the tree absent and both move: the
   second tree ends up inside the first.
   */
  lemma TwoFetchesNest(w: World, key: Key)
    requires key.slot in {101, 102} && w.revision(key.revision) == [Symlink("a", "b")]
    ensures var linked := [] + [StartGit(0, key)] + [StartGit(1, key)] + [Advance(0)] + [Advance(1)];
      var t := Run(w, EMPTY, linked + [Advance(0)] + [Advance(1)] + [Advance(0)] + [Advance(1)]);
      key in t.trees && Under("a") in t.trees[key]
  {
    RunBoth(w, EMPTY, [], StartGit(0, key), StartGit(1, key));
    var starts := [] + [StartGit(0, key)] + [StartGit(1, key)];
    var s0 := Run(w, EMPTY, starts);
    RunBoth(w, EMPTY, starts, Advance(0), Advance(1));
    LinkStep(w, s0, 0, key);
    LinkStep(w, Step(w, s0, Advance(0)), 1, key);
    var linked := starts + [Advance(0)] + [Advance(1)];
    var s1 := Run(w, EMPTY, linked);
    RunBoth(w, EMPTY, linked, Advance(0), Advance(1));
    CheckStep(w, s1, 0, key);
    CheckStep(w, Step(w, s1, Advance(0)), 1, key);
    var checked := linked + [Advance(0)] + [Advance(1)];
    var s2 := Run(w, EMPTY, checked);
    RunBoth(w, EMPTY, checked, Advance(0), Advance(1));
    MoveStep(w, s2, 0, key);
    MoveStep(w, Step(w, s2, Advance(0)), 1, key);
    assert Accepts(ONE_LINK);
    NestedKeeps(ONE_LINK, ONE_LINK);
  }
}
