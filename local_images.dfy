/**
 * The `localimages` field: a list of images per record. Each list entry is an
 * attachment with the `_id` the record store gave it; entries are removed by
 * id, reordered by a directive, and appended by uploads.
 */
module LocalImages {
  import opened Wrappers
  import opened Text
  import opened Paths
  import opened Disk
  import opened FieldConfig
  import opened Attachments
  import opened Hooks
  import opened Upload

  datatype ListImage = ListImage(id: string, image: Attachment)

  /** `thumb(type)` on a list entry. */
  function Thumb(item: ListImage, token: string): string
  {
    ThumbUrl(item.image.path, item.image.filename, token)
  }

  /** `format`: the configured formatter's text, or the default thumbnail's URL. */
  function Format(a: Attachment, formatter: Option<Attachment -> string>): string
  {
    if formatter.Some? then formatter.value(a) else ThumbUrl(a.path, a.filename, DefaultToken)
  }

  /** The URL of an entry's derivative is where removal in `delete` mode looks for it, as served. */
  lemma ThumbMatchesRemovedDerivative(s: Settings, item: ListImage, token: string)
    requires item.image.path == s.dest && IndexOf(s.dest, "public/") != -1
    ensures Thumb(item, token) == ReplaceFirst(DerivativePath(s.dest, item.image.filename, token), "public/", "/")
  {
    ThumbUrlServesDerivative(s.dest, item.image.filename, token);
  }

  // ---------------------------------------------------------------------
  // removeImage

  /** How `removeImage` is told which entry: a number, or a string id. */
  datatype Target = ByNumber(n: int) | ByString(id: string)

  datatype RemovalMode = Remove | Delete

  /** The index of the first entry whose `_id` is `id`, or -1. */
  function FirstWithId(images: seq<ListImage>, id: string): (k: int)
    ensures -1 <= k < |images|
    ensures k == -1 <==> forall j :: 0 <= j < |images| ==> images[j].id != id
    ensures k >= 0 ==> images[k].id == id && forall j :: 0 <= j < k ==> images[j].id != id
    decreases |images|
  {
    if |images| == 0 then -1
    else if images[0].id == id then 0
    else
      var k := FirstWithId(images[1..], id);
      if k == -1 then -1 else k + 1
  }

  /** The lookup loop of `removeImage`. */
  method FindById(images: seq<ListImage>, id: string) returns (k: int)
    ensures k == FirstWithId(images, id)
  {
    k := -1;
    var i := 0;
    while i < |images|
      invariant 0 <= i <= |images|
      invariant k == -1
      invariant forall j :: 0 <= j < i ==> images[j].id != id
    {
      if images[i].id == id {
        k := i;
        break;
      }
      i := i + 1;
    }
  }

  /**
   * The entry `removeImage` acts on, if any: a string id is looked up by
   * `_id` first and otherwise read as an array index (`images[id]`).
   */
  function ResolveTarget(images: seq<ListImage>, t: Target): (r: Option<nat>)
    ensures r.Some? ==> r.value < |images|
  {
    match t
    case ByNumber(n) => if 0 <= n < |images| then Some(n) else None
    case ByString(id) =>
      var k := FirstWithId(images, id);
      if k >= 0 then Some(k)
      else match IndexKey(id)
        case Some(n) => if n < |images| then Some(n) else None
        case None => None
  }

  /** A matching `_id` wins: the first entry carrying it is the one removed. */
  lemma IdMatchWins(images: seq<ListImage>, id: string, k: nat)
    requires k < |images| && images[k].id == id
    requires forall j :: 0 <= j < k ==> images[j].id != id
    ensures ResolveTarget(images, ByString(id)) == Some(k)
  {
  }

  /**
   * Without a matching `_id`, the id selects by position exactly when it is
   * the decimal rendering of an index in range.
   */
  lemma PositionalFallback(images: seq<ListImage>, id: string)
    requires forall j :: 0 <= j < |images| ==> images[j].id != id
    ensures ResolveTarget(images, ByString(id)).Some? <==>
            exists n :: 0 <= n < |images| && id == NatToDecimal(n)
    ensures forall n :: 0 <= n < |images| && id == NatToDecimal(n) ==>
            ResolveTarget(images, ByString(id)) == Some(n)
  {
    match IndexKey(id)
    case Some(n) =>
      IndexKeyIsDecimal(id, n);
      forall m | 0 <= m < |images| && id == NatToDecimal(m) ensures m == n {
        IndexKeyIsDecimal(id, m);
      }
    case None =>
      forall m | 0 <= m < |images| ensures id != NatToDecimal(m) {
        IndexKeyIsDecimal(id, m);
      }
  }

  /** `images.splice(k, 1)`: exactly one entry leaves, the others keep their order. */
  function RemovedAt(images: seq<ListImage>, k: nat): (r: seq<ListImage>)
    requires k < |images|
    ensures |r| == |images| - 1
    ensures forall j :: 0 <= j < k ==> r[j] == images[j]
    ensures forall j :: k <= j < |r| ==> r[j] == images[j + 1]
    ensures multiset(r) + multiset{images[k]} == multiset(images)
  {
    assert images == images[..k] + [images[k]] + images[k + 1..];
    images[..k] + images[k + 1..]
  }

  /** The disk after a `delete`-mode removal: the original and every derivative are gone. */
  function RemovalFiles(files: set<string>, img: Attachment, dest: string, tokens: seq<string>): (r: set<string>)
    ensures r <= files
    ensures StoredAt(img) !in r
    ensures forall i :: 0 <= i < |tokens| ==> DerivativePath(dest, img.filename, tokens[i]) !in r
    ensures forall p :: p in files && p != StoredAt(img) && p !in DerivativePaths(dest, img.filename, tokens) ==> p in r
  {
    DerivativePathsCover(dest, img.filename, tokens);
    files - {StoredAt(img)} - DerivativePaths(dest, img.filename, tokens)
  }

  /** `removeImage` on values: the disk and the list afterwards. */
  function RemoveEffect(files: set<string>, images: seq<ListImage>, t: Target, mode: RemovalMode,
                        dest: string, tokens: seq<string>): (set<string>, seq<ListImage>)
  {
    match ResolveTarget(images, t)
    case None => (files, images)
    case Some(k) =>
      (if mode == Delete then RemovalFiles(files, images[k].image, dest, tokens) else files,
       RemovedAt(images, k))
  }

  /**
   * Removing in `delete` mode an entry an upload just added leaves none of
   * the paths that upload wrote.
   */
  lemma DeleteUndoesUpload(s: Settings, dateText: string, files: set<string>, images: seq<ListImage>,
                           a: Attempt, id: string)
    requires UploadPipeline(s, dateText, files, a).stored.Some?
    requires forall j :: 0 <= j < |images| ==> images[j].id != id
    ensures var e := UploadPipeline(s, dateText, files, a);
            var name := e.stored.value.filename;
            var after := RemoveEffect(e.files, images + [ListImage(id, e.stored.value)], ByString(id), Delete, s.dest, s.resample);
            && after.1 == images
            && Join(s.dest, name) !in after.0
            && (forall i :: 0 <= i < |s.resample| ==> DerivativePath(s.dest, name, s.resample[i]) !in after.0)
  {
    var e := UploadPipeline(s, dateText, files, a);
    var list := images + [ListImage(id, e.stored.value)];
    assert ResolveTarget(list, ByString(id)) == Some(|images|) by {
      assert list[|images|].id == id;
      IdMatchWins(list, id, |images|);
    }
    assert RemovedAt(list, |images|) == images;
  }

  // ---------------------------------------------------------------------
  // The order directive

  /** An entry's position in the directive: `newOrder.indexOf(_id)`, -1 when unlisted. */
  function OrderKey(order: seq<string>, item: ListImage): int
  {
    SeqIndexOf(order, item.id)
  }

  predicate SortedByOrder(order: seq<string>, items: seq<ListImage>)
  {
    forall i, j :: 0 <= i < j < |items| ==> OrderKey(order, items[i]) <= OrderKey(order, items[j])
  }

  /** Every entry's key is at least `k`. */
  predicate KeysAtLeast(order: seq<string>, k: int, items: seq<ListImage>)
  {
    forall i :: 0 <= i < |items| ==> k <= OrderKey(order, items[i])
  }

  lemma SortedCons(order: seq<string>, h: ListImage, t: seq<ListImage>)
    requires KeysAtLeast(order, OrderKey(order, h), t) && SortedByOrder(order, t)
    ensures SortedByOrder(order, [h] + t)
  {
    var r := [h] + t;
    forall i, j | 0 <= i < j < |r| ensures OrderKey(order, r[i]) <= OrderKey(order, r[j]) {
      assert r[j] == t[j - 1];
      if i > 0 {
        assert r[i] == t[i - 1];
      }
    }
  }

  /** Inserts `x` ahead of the first entry whose key is not smaller. */
  function InsertByOrder(order: seq<string>, x: ListImage, items: seq<ListImage>): (r: seq<ListImage>)
    ensures multiset(r) == multiset(items) + multiset{x}
    ensures |r| == |items| + 1
    decreases |items|
  {
    if |items| == 0 || OrderKey(order, x) <= OrderKey(order, items[0]) then [x] + items
    else
      assert items == [items[0]] + items[1..];
      [items[0]] + InsertByOrder(order, x, items[1..])
  }

  lemma {:induction false} InsertKeepsBound(order: seq<string>, k: int, x: ListImage, items: seq<ListImage>)
    requires KeysAtLeast(order, k, items) && k <= OrderKey(order, x)
    ensures KeysAtLeast(order, k, InsertByOrder(order, x, items))
    decreases |items|
  {
    if |items| > 0 && OrderKey(order, x) > OrderKey(order, items[0]) {
      InsertKeepsBound(order, k, x, items[1..]);
      var rest := InsertByOrder(order, x, items[1..]);
      assert InsertByOrder(order, x, items) == [items[0]] + rest;
    }
  }

  /** Inserting into a sorted list keeps it sorted. */
  lemma {:induction false} InsertSorted(order: seq<string>, x: ListImage, items: seq<ListImage>)
    requires SortedByOrder(order, items)
    ensures SortedByOrder(order, InsertByOrder(order, x, items))
    decreases |items|
  {
    if |items| == 0 || OrderKey(order, x) <= OrderKey(order, items[0]) {
      SortedCons(order, x, items);
    } else {
      var t := items[1..];
      assert SortedByOrder(order, t) by {
        forall i, j | 0 <= i < j < |t| ensures OrderKey(order, t[i]) <= OrderKey(order, t[j]) {
          assert t[i] == items[i + 1] && t[j] == items[j + 1];
        }
      }
      assert KeysAtLeast(order, OrderKey(order, items[0]), t) by {
        forall i | 0 <= i < |t| ensures OrderKey(order, items[0]) <= OrderKey(order, t[i]) {
          assert t[i] == items[i + 1];
        }
      }
      InsertSorted(order, x, t);
      InsertKeepsBound(order, OrderKey(order, items[0]), x, t);
      SortedCons(order, items[0], InsertByOrder(order, x, t));
    }
  }

  /**
   * `files.sort(...)` by directive position: the result is a permutation of
   * the list, ordered by position in the directive, unlisted entries first.
   */
  function SortByOrder(order: seq<string>, items: seq<ListImage>): (r: seq<ListImage>)
    ensures SortedByOrder(order, r)
    ensures multiset(r) == multiset(items)
    ensures |r| == |items|
    decreases |items|
  {
    if |items| == 0 then []
    else
      assert items == [items[0]] + items[1..];
      var rest := SortByOrder(order, items[1..]);
      InsertSorted(order, items[0], rest);
      InsertByOrder(order, items[0], rest)
  }

  /** Every unlisted entry comes before every listed one. */
  lemma UnlistedSortFirst(order: seq<string>, items: seq<ListImage>, i: nat, j: nat)
    requires i < |items| && j < |items|
    requires SortByOrder(order, items)[i].id !in order
    requires SortByOrder(order, items)[j].id in order
    ensures i < j
  {
  }

  /** Listed entries appear in the order the directive lists their ids. */
  lemma ListedFollowDirective(order: seq<string>, items: seq<ListImage>, i: nat, j: nat)
    requires i < j < |SortByOrder(order, items)|
    requires SortByOrder(order, items)[i].id in order && SortByOrder(order, items)[j].id in order
    requires SortByOrder(order, items)[i].id != SortByOrder(order, items)[j].id
    ensures SeqIndexOf(order, SortByOrder(order, items)[i].id) < SeqIndexOf(order, SortByOrder(order, items)[j].id)
  {
    var r := SortByOrder(order, items);
    assert OrderKey(order, r[i]) <= OrderKey(order, r[j]);
  }

  lemma SplitExampleDirective()
    ensures Split("C,A,B", ',') == ["C", "A", "B"]
  {
    var order := ["C", "A", "B"];
    assert order[1..] == ["A", "B"] && order[1..][1..] == ["B"];
    assert JoinWith(["B"], ',') == "B";
    assert JoinWith(["A", "B"], ',') == "A,B";
    assert JoinWith(order, ',') == "C,A,B";
    JoinThenSplit(order, ',');
  }

  lemma ExampleKeys(x: ListImage, y: ListImage, z: ListImage)
    requires x.id == "A" && y.id == "B" && z.id == "C"
    ensures OrderKey(["C", "A", "B"], x) == 1
    ensures OrderKey(["C", "A", "B"], y) == 2
    ensures OrderKey(["C", "A", "B"], z) == 0
  {
    var order := ["C", "A", "B"];
    assert order[1..] == ["A", "B"] && order[1..][1..] == ["B"];
  }

  lemma SortTwoExample(y: ListImage, z: ListImage)
    requires OrderKey(["C", "A", "B"], y) == 2 && OrderKey(["C", "A", "B"], z) == 0
    ensures SortByOrder(["C", "A", "B"], [y, z]) == [z, y]
  {
    var order := ["C", "A", "B"];
    assert [y, z][1..] == [z] && [z][1..] == [];
    assert SortByOrder(order, [z]) == [z];
    assert InsertByOrder(order, y, []) == [y];
  }

  lemma InsertExample(x: ListImage, y: ListImage, z: ListImage)
    requires OrderKey(["C", "A", "B"], x) == 1
    requires OrderKey(["C", "A", "B"], y) == 2 && OrderKey(["C", "A", "B"], z) == 0
    ensures InsertByOrder(["C", "A", "B"], x, [z, y]) == [z, x, y]
  {
    var order := ["C", "A", "B"];
    assert [z, y][1..] == [y];
    assert InsertByOrder(order, x, [y]) == [x, y];
  }

  /** Entries `A, B, C` under the directive `C,A,B` come out as `C, A, B`. */
  lemma ReorderExample(x: ListImage, y: ListImage, z: ListImage)
    requires x.id == "A" && y.id == "B" && z.id == "C"
    ensures SortByOrder(Split("C,A,B", ','), [x, y, z]) == [z, x, y]
  {
    var order := ["C", "A", "B"];
    SplitExampleDirective();
    ExampleKeys(x, y, z);
    SortTwoExample(y, z);
    InsertExample(x, y, z);
    assert [x, y, z][1..] == [y, z];
  }

  // ---------------------------------------------------------------------
  // The action directive `mode:id,id|mode:id`

  /** One removal the directive asks for. */
  datatype Removal = Removal(mode: RemovalMode, id: string)

  /** `/^(remove|delete)$/`. */
  function ModeNamed(m: string): Option<RemovalMode>
  {
    if m == "remove" then Some(Remove) else if m == "delete" then Some(Delete) else None
  }

  function ForIds(mode: RemovalMode, ids: seq<string>): (r: seq<Removal>)
    ensures |r| == |ids| && forall i :: 0 <= i < |ids| ==> r[i] == Removal(mode, ids[i])
    decreases |ids|
  {
    if |ids| == 0 then [] else [Removal(mode, ids[0])] + ForIds(mode, ids[1..])
  }

  /** One `mode:ids` group: applied only for a known mode and a non-empty id list. */
  function GroupRemovals(group: string): seq<Removal>
  {
    var parts := Split(group, ':');
    var mode := ModeNamed(parts[0]);
    if mode.None? || |parts| < 2 || parts[1] == "" then [] else ForIds(mode.value, Split(parts[1], ','))
  }

  function GroupsRemovals(groups: seq<string>): seq<Removal>
    decreases |groups|
  {
    if |groups| == 0 then [] else GroupRemovals(groups[0]) + GroupsRemovals(groups[1..])
  }

  /** The removals an action directive asks for, in order. */
  function ParseActions(directive: string): seq<Removal>
  {
    GroupsRemovals(Split(directive, '|'))
  }

  /** A group as a client writes it. */
  datatype ActionGroup = ActionGroup(mode: RemovalMode, ids: seq<string>)

  function ModeName(m: RemovalMode): string
  {
    match m
    case Remove => "remove"
    case Delete => "delete"
  }

  predicate PlainId(id: string)
  {
    ',' !in id && ':' !in id && '|' !in id
  }

  /** A group that renders to a non-empty id list of plain ids. */
  predicate WellFormedGroup(g: ActionGroup)
  {
    && |g.ids| >= 1
    && (|g.ids| > 1 || g.ids[0] != "")
    && forall i :: 0 <= i < |g.ids| ==> PlainId(g.ids[i])
  }

  function RenderGroup(g: ActionGroup): string
    requires WellFormedGroup(g)
  {
    ModeName(g.mode) + ":" + JoinWith(g.ids, ',')
  }

  function RenderGroups(groups: seq<ActionGroup>): (r: seq<string>)
    requires forall i :: 0 <= i < |groups| ==> WellFormedGroup(groups[i])
    ensures |r| == |groups| && forall i :: 0 <= i < |groups| ==> r[i] == RenderGroup(groups[i])
    decreases |groups|
  {
    if |groups| == 0 then [] else [RenderGroup(groups[0])] + RenderGroups(groups[1..])
  }

  function GroupsExpected(groups: seq<ActionGroup>): seq<Removal>
    decreases |groups|
  {
    if |groups| == 0 then [] else ForIds(groups[0].mode, groups[0].ids) + GroupsExpected(groups[1..])
  }

  lemma {:induction false} GroupRoundTrip(g: ActionGroup)
    requires WellFormedGroup(g)
    ensures GroupRemovals(RenderGroup(g)) == ForIds(g.mode, g.ids)
    ensures '|' !in RenderGroup(g)
  {
    var m := ModeName(g.mode);
    var j := JoinWith(g.ids, ',');
    RenderedSplits(g);
    assert j != "" by {
      if |g.ids| > 1 {
        assert |j| > 0;
      }
    }
    JoinThenSplit(g.ids, ',');
    assert ModeNamed(m) == Some(g.mode);
    NotInJoin(g.ids, '|', ',');
  }

  /** A rendered group splits at its one `:` into the mode and the joined ids. */
  lemma RenderedSplits(g: ActionGroup)
    requires WellFormedGroup(g)
    ensures Split(RenderGroup(g), ':') == [ModeName(g.mode), JoinWith(g.ids, ',')]
  {
    var m := ModeName(g.mode);
    var j := JoinWith(g.ids, ',');
    NotInJoin(g.ids, ':', ',');
    assert ':' !in m;
    assert RenderGroup(g) == m + [':'] + j;
    SplitAtSeparator(m, j, ':');
    SplitWithoutSeparator(j, ':');
  }

  lemma {:induction false} GroupsRoundTrip(groups: seq<ActionGroup>)
    requires forall i :: 0 <= i < |groups| ==> WellFormedGroup(groups[i])
    ensures GroupsRemovals(RenderGroups(groups)) == GroupsExpected(groups)
    decreases |groups|
  {
    if |groups| > 0 {
      GroupRoundTrip(groups[0]);
      GroupsRoundTrip(groups[1..]);
      assert RenderGroups(groups)[1..] == RenderGroups(groups[1..]);
    }
  }

  /**
   * A directive written from well-formed groups is read back as those
   * groups' removals, id by id and group by group.
   */
  lemma ParseActionsRoundTrip(groups: seq<ActionGroup>)
    requires |groups| >= 1
    requires forall i :: 0 <= i < |groups| ==> WellFormedGroup(groups[i])
    ensures ParseActions(JoinWith(RenderGroups(groups), '|')) == GroupsExpected(groups)
  {
    var rendered := RenderGroups(groups);
    forall i | 0 <= i < |rendered| ensures '|' !in rendered[i] {
      GroupRoundTrip(groups[i]);
    }
    JoinThenSplit(rendered, '|');
    GroupsRoundTrip(groups);
  }

  /** A group naming any other mode, or giving no ids, asks for nothing. */
  lemma IgnoredGroups(mode: string, ids: string)
    requires ':' !in mode && ':' !in ids
    requires ModeNamed(mode).None? || ids == ""
    ensures GroupRemovals(mode + ":" + ids) == []
  {
    SplitAtSeparator(mode, ids, ':');
    SplitWithoutSeparator(ids, ':');
    assert mode + ":" + ids == mode + [':'] + ids;
  }

  // ---------------------------------------------------------------------
  // Removals on values

  /**
   * A removal takes out at most one entry, touches the disk only in `delete`
   * mode, and then only by unlinking.
   */
  lemma RemoveEffectShrinks(files: set<string>, images: seq<ListImage>, t: Target, mode: RemovalMode,
                            dest: string, tokens: seq<string>)
    ensures var (files1, images1) := RemoveEffect(files, images, t, mode, dest, tokens);
            && files1 <= files
            && (mode == Remove ==> files1 == files)
            && multiset(images1) <= multiset(images)
            && |images1| == if ResolveTarget(images, t).Some? then |images| - 1 else |images|
  {
  }

  /** `removeImage` applied for each parsed removal, in order. */
  function ApplyRemovals(files: set<string>, images: seq<ListImage>, rs: seq<Removal>,
                         dest: string, tokens: seq<string>): (r: (set<string>, seq<ListImage>))
    decreases |rs|
  {
    if |rs| == 0 then (files, images)
    else
      var (files1, images1) := ApplyRemovals(files, images, rs[..|rs| - 1], dest, tokens);
      var last := rs[|rs| - 1];
      RemoveEffect(files1, images1, ByString(last.id), last.mode, dest, tokens)
  }

  /**
   * A directive of removals leaves a sub-multiset of the list, at most one
   * entry fewer per removal, and a disk that only lost files; with only
   * `remove` groups the disk is untouched.
   */
  lemma {:induction false} ApplyRemovalsShrinks(files: set<string>, images: seq<ListImage>, rs: seq<Removal>,
                                                dest: string, tokens: seq<string>)
    ensures var (files1, images1) := ApplyRemovals(files, images, rs, dest, tokens);
            && files1 <= files
            && multiset(images1) <= multiset(images)
            && |images| - |rs| <= |images1| <= |images|
            && ((forall i :: 0 <= i < |rs| ==> rs[i].mode == Remove) ==> files1 == files)
    decreases |rs|
  {
    if |rs| > 0 {
      var init := rs[..|rs| - 1];
      ApplyRemovalsShrinks(files, images, init, dest, tokens);
      assert forall i :: 0 <= i < |init| ==> init[i] == rs[i];
      var (files1, images1) := ApplyRemovals(files, images, init, dest, tokens);
      var last := rs[|rs| - 1];
      RemoveEffectShrinks(files1, images1, ByString(last.id), last.mode, dest, tokens);
    }
  }

  /** `remove:a,b|delete:c` removes `a` and `b` from the list and deletes `c` with its files. */
  lemma ActionExample()
    ensures ParseActions("remove:a,b|delete:c") == [Removal(Remove, "a"), Removal(Remove, "b"), Removal(Delete, "c")]
  {
    ExampleGroupsRender();
    ParseActionsRoundTrip(ExampleGroups);
    ExampleGroupsExpected();
  }

  const ExampleGroups := [ActionGroup(Remove, ["a", "b"]), ActionGroup(Delete, ["c"])]

  lemma ExampleGroupsRender()
    ensures forall i :: 0 <= i < |ExampleGroups| ==> WellFormedGroup(ExampleGroups[i])
    ensures JoinWith(RenderGroups(ExampleGroups), '|') == "remove:a,b|delete:c"
  {
    var groups := ExampleGroups;
    assert WellFormedGroup(groups[0]) && WellFormedGroup(groups[1]);
    assert RenderGroup(groups[0]) == "remove:a,b" by {
      assert ["a", "b"][1..] == ["b"];
      assert JoinWith(["a", "b"], ',') == "a,b";
    }
    assert RenderGroup(groups[1]) == "delete:c";
    assert RenderGroups(groups) == ["remove:a,b", "delete:c"];
    assert ["remove:a,b", "delete:c"][1..] == ["delete:c"];
  }

  lemma ExampleGroupsExpected()
    ensures GroupsExpected(ExampleGroups) == [Removal(Remove, "a"), Removal(Remove, "b"), Removal(Delete, "c")]
  {
    var groups := ExampleGroups;
    assert groups[1..] == [groups[1]] && groups[1..][1..] == [];
    assert ForIds(Remove, ["a", "b"]) == [Removal(Remove, "a"), Removal(Remove, "b")];
    assert ForIds(Delete, ["c"]) == [Removal(Delete, "c")];
  }

  // ---------------------------------------------------------------------
  // uploadFiles on values

  /** An uploaded file together with the `_id` the record store gives its list entry. */
  datatype Incoming = Incoming(attempt: Attempt, id: string)

  /** A call of the batch's callback: `callback(err)` or `callback(null, fileDatas)`. */
  datatype BatchCall = FileFailed(error: UploadError) | AllStored(fileDatas: seq<Attachment>)

  /** The disk, the list, the `fileDatas` collected so far and the callback calls made so far. */
  datatype BatchState = BatchState(files: set<string>, images: seq<ListImage>, fileDatas: seq<Attachment>,
                                   calls: seq<BatchCall>)

  /** What the pipeline guarantees of its effects: only a moved file can succeed. */
  predicate Consistent(e: Effects)
  {
    (e.stored.None? ==> e.verdict.Failure?) && (e.verdict.Success? ==> e.stored.Some?)
  }

  lemma PipelineConsistent(s: Settings, dateText: string, files: set<string>, a: Attempt)
    ensures Consistent(UploadPipeline(s, dateText, files, a))
  {
  }

  /**
   * One file of the batch, given the effects of its pipeline. A moved file
   * enters the list (replacing it when `update` holds) and `fileDatas` before
   * its post-move hooks run; the batch callback gets the file's error, or,
   * once `fileDatas` holds `total` entries, the whole `fileDatas`.
   */
  function StepWith(total: nat, update: bool, st: BatchState, id: string, e: Effects): (r: BatchState)
    requires Consistent(e)
    ensures r.files == e.files
  {
    if e.stored.None? then
      BatchState(e.files, st.images, st.fileDatas, st.calls + [FileFailed(e.verdict.error)])
    else
      var entry := ListImage(id, e.stored.value);
      var images := if update then [entry] else st.images + [entry];
      var datas := st.fileDatas + [e.stored.value];
      var calls :=
        if e.verdict.Failure? then st.calls + [FileFailed(e.verdict.error)]
        else if |datas| == total then st.calls + [AllStored(datas)]
        else st.calls;
      BatchState(e.files, images, datas, calls)
  }

  /** One file of the batch, run through the pipeline on the current disk. */
  function UploadStep(s: Settings, dateText: string, total: nat, update: bool, st: BatchState, inc: Incoming): BatchState
  {
    PipelineConsistent(s, dateText, st.files, inc.attempt);
    StepWith(total, update, st, inc.id, UploadPipeline(s, dateText, st.files, inc.attempt))
  }

  /** The files of a batch, handled one after another. */
  function Batch(s: Settings, dateText: string, total: nat, update: bool, st: BatchState, incs: seq<Incoming>): BatchState
    decreases |incs|
  {
    if |incs| == 0 then st
    else UploadStep(s, dateText, total, update, Batch(s, dateText, total, update, st, incs[..|incs| - 1]), incs[|incs| - 1])
  }

  /** The effects of each file's pipeline, in file order, each run on the disk the files before it leave. */
  function BatchEffects(s: Settings, dateText: string, total: nat, update: bool, st: BatchState,
                        incs: seq<Incoming>): (r: seq<Effects>)
    ensures |r| == |incs|
    decreases |incs|
  {
    if |incs| == 0 then []
    else
      var init := incs[..|incs| - 1];
      BatchEffects(s, dateText, total, update, st, init)
        + [UploadPipeline(s, dateText, Batch(s, dateText, total, update, st, init).files, incs[|incs| - 1].attempt)]
  }

  /** Entry `i` of the effects is file `i`'s pipeline on the disk the earlier files leave. */
  lemma {:induction false} BatchEffectAt(s: Settings, dateText: string, total: nat, update: bool, st: BatchState,
                                         incs: seq<Incoming>, i: nat)
    requires i < |incs|
    ensures BatchEffects(s, dateText, total, update, st, incs)[i]
            == UploadPipeline(s, dateText, Batch(s, dateText, total, update, st, incs[..i]).files, incs[i].attempt)
    decreases |incs|
  {
    var init := incs[..|incs| - 1];
    if i < |incs| - 1 {
      BatchEffectAt(s, dateText, total, update, st, init, i);
      assert init[..i] == incs[..i];
    }
  }

  /** The list entries of the files whose pipeline stored them, in file order. */
  function MovedEntries(incs: seq<Incoming>, es: seq<Effects>): (r: seq<ListImage>)
    requires |es| == |incs|
    ensures |r| <= |incs|
    decreases |incs|
  {
    if |incs| == 0 then []
    else
      var n := |incs| - 1;
      MovedEntries(incs[..n], es[..n]) + (if es[n].stored.Some? then [ListImage(incs[n].id, es[n].stored.value)] else [])
  }

  /** Every file has a moved entry exactly when every file's pipeline stored its file. */
  lemma {:induction false} AllMovedExactly(incs: seq<Incoming>, es: seq<Effects>)
    requires |es| == |incs|
    ensures |MovedEntries(incs, es)| == |incs| <==> forall i :: 0 <= i < |es| ==> es[i].stored.Some?
    decreases |incs|
  {
    if |incs| > 0 {
      var n := |incs| - 1;
      AllMovedExactly(incs[..n], es[..n]);
      assert forall i :: 0 <= i < n ==> es[..n][i] == es[i];
    }
  }

  /** The entries a batch's files add: those of the files whose pipeline stored them, in file order. */
  function BatchMoved(s: Settings, dateText: string, total: nat, update: bool, st: BatchState,
                      incs: seq<Incoming>): (r: seq<ListImage>)
    ensures |r| <= |incs|
  {
    MovedEntries(incs, BatchEffects(s, dateText, total, update, st, incs))
  }

  /** Appending one file's effects adds that file's entry when it was stored, and nothing otherwise. */
  lemma MovedEntriesSplit(incs: seq<Incoming>, es: seq<Effects>, e: Effects)
    requires |es| + 1 == |incs|
    ensures MovedEntries(incs, es + [e])
            == MovedEntries(incs[..|es|], es) + (if e.stored.Some? then [ListImage(incs[|es|].id, e.stored.value)] else [])
  {
    assert (es + [e])[..|es|] == es;
  }

  lemma BatchStep(s: Settings, dateText: string, total: nat, update: bool, st: BatchState, incs: seq<Incoming>, i: nat)
    requires i < |incs|
    ensures Batch(s, dateText, total, update, st, incs[..i + 1])
              == UploadStep(s, dateText, total, update, Batch(s, dateText, total, update, st, incs[..i]), incs[i])
  {
    assert incs[..i + 1][..i] == incs[..i];
  }

  /** The last step of a batch, with the effects of the last file's pipeline named. */
  lemma BatchLast(s: Settings, dateText: string, total: nat, update: bool, st: BatchState, incs: seq<Incoming>)
    requires |incs| > 0
    ensures var mid := Batch(s, dateText, total, update, st, incs[..|incs| - 1]);
            var e := UploadPipeline(s, dateText, mid.files, incs[|incs| - 1].attempt);
            Consistent(e) && Batch(s, dateText, total, update, st, incs) == StepWith(total, update, mid, incs[|incs| - 1].id, e)
  {
    var mid := Batch(s, dateText, total, update, st, incs[..|incs| - 1]);
    PipelineConsistent(s, dateText, mid.files, incs[|incs| - 1].attempt);
  }

  /** The last step of a batch, for proofs that need only the effects' consistency. */
  lemma BatchSplit(s: Settings, dateText: string, total: nat, update: bool, st: BatchState, incs: seq<Incoming>)
      returns (e: Effects)
    requires |incs| > 0
    ensures Consistent(e)
    ensures BatchEffects(s, dateText, total, update, st, incs)
            == BatchEffects(s, dateText, total, update, st, incs[..|incs| - 1]) + [e]
    ensures Batch(s, dateText, total, update, st, incs)
            == StepWith(total, update, Batch(s, dateText, total, update, st, incs[..|incs| - 1]), incs[|incs| - 1].id, e)
  {
    BatchLast(s, dateText, total, update, st, incs);
    e := UploadPipeline(s, dateText, Batch(s, dateText, total, update, st, incs[..|incs| - 1]).files, incs[|incs| - 1].attempt);
  }

  /** The attachments of list entries, in order. */
  function ImagesOf(entries: seq<ListImage>): (r: seq<Attachment>)
    ensures |r| == |entries| && forall k :: 0 <= k < |entries| ==> r[k] == entries[k].image
    decreases |entries|
  {
    if |entries| == 0 then [] else [entries[0].image] + ImagesOf(entries[1..])
  }

  /** One file without `update`: a stored file's entry is appended and its attachment collected; otherwise neither changes. */
  lemma StepAppends(total: nat, st: BatchState, id: string, e: Effects)
    requires Consistent(e)
    ensures var r := StepWith(total, false, st, id, e);
            && (e.stored.Some? ==> r.images == st.images + [ListImage(id, e.stored.value)]
                                   && r.fileDatas == st.fileDatas + [e.stored.value])
            && (e.stored.None? ==> r.images == st.images && r.fileDatas == st.fileDatas)
  {
  }

  lemma ImagesOfAppend(a: seq<ListImage>, b: seq<ListImage>)
    ensures ImagesOf(a + b) == ImagesOf(a) + ImagesOf(b)
  {
    assert forall k :: 0 <= k < |a + b| ==> ImagesOf(a + b)[k] == (ImagesOf(a) + ImagesOf(b))[k];
  }

  lemma AppendAssoc<T>(x: seq<T>, y: seq<T>, z: seq<T>)
    ensures x + y + z == x + (y + z)
  {
  }

  /** Every batch collects, in `fileDatas`, the attachments of the moved entries, in file order. */
  lemma {:induction false} BatchCollects(s: Settings, dateText: string, total: nat, update: bool, st: BatchState,
                                         incs: seq<Incoming>)
    ensures Batch(s, dateText, total, update, st, incs).fileDatas
            == st.fileDatas + ImagesOf(BatchMoved(s, dateText, total, update, st, incs))
    decreases |incs|
  {
    if |incs| > 0 {
      var init := incs[..|incs| - 1];
      BatchCollects(s, dateText, total, update, st, init);
      var mid := Batch(s, dateText, total, update, st, init);
      var e := BatchSplit(s, dateText, total, update, st, incs);
      var m := BatchMoved(s, dateText, total, update, st, init);
      var tail := if e.stored.Some? then [ListImage(incs[|incs| - 1].id, e.stored.value)] else [];
      MovedEntriesSplit(incs, BatchEffects(s, dateText, total, update, st, init), e);
      assert BatchMoved(s, dateText, total, update, st, incs) == m + tail;
      ImagesOfAppend(m, tail);
      AppendAssoc(st.fileDatas, ImagesOf(m), ImagesOf(tail));
    }
  }

  /**
   * Without `update`, a batch appends to the list exactly the entries of the
   * files whose pipeline stored them, in file order, and `fileDatas` gains
   * exactly their attachments.
   */
  lemma {:induction false} BatchAppends(s: Settings, dateText: string, total: nat, st: BatchState, incs: seq<Incoming>)
    ensures var r := Batch(s, dateText, total, false, st, incs);
            var m := BatchMoved(s, dateText, total, false, st, incs);
            && r.images == st.images + m
            && r.fileDatas == st.fileDatas + ImagesOf(m)
    decreases |incs|
  {
    BatchCollects(s, dateText, total, false, st, incs);
    if |incs| > 0 {
      var init := incs[..|incs| - 1];
      BatchAppends(s, dateText, total, st, init);
      var mid := Batch(s, dateText, total, false, st, init);
      var e := BatchSplit(s, dateText, total, false, st, incs);
      StepAppends(total, mid, incs[|incs| - 1].id, e);
      var m := BatchMoved(s, dateText, total, false, st, init);
      var tail := if e.stored.Some? then [ListImage(incs[|incs| - 1].id, e.stored.value)] else [];
      MovedEntriesSplit(incs, BatchEffects(s, dateText, total, false, st, init), e);
      assert BatchMoved(s, dateText, total, false, st, incs) == m + tail;
      AppendAssoc(st.images, m, tail);
    }
  }

  /** One file with `update`: a stored file's entry becomes the whole list and its attachment is collected; otherwise neither changes. */
  lemma StepReplaces(total: nat, st: BatchState, id: string, e: Effects)
    requires Consistent(e)
    ensures var r := StepWith(total, true, st, id, e);
            && (e.stored.Some? ==> r.images == [ListImage(id, e.stored.value)]
                                   && r.fileDatas == st.fileDatas + [e.stored.value])
            && (e.stored.None? ==> r.images == st.images && r.fileDatas == st.fileDatas)
  {
  }

  /**
   * With `update`, a batch leaves the list alone when no file was stored, and
   * otherwise leaves exactly one entry: that of the last file stored.
   * `fileDatas` gains the attachments of every stored file, in file order.
   */
  lemma {:induction false} BatchReplaces(s: Settings, dateText: string, total: nat, st: BatchState, incs: seq<Incoming>)
    ensures var r := Batch(s, dateText, total, true, st, incs);
            var m := BatchMoved(s, dateText, total, true, st, incs);
            && r.images == (if |m| == 0 then st.images else [m[|m| - 1]])
            && r.fileDatas == st.fileDatas + ImagesOf(m)
    decreases |incs|
  {
    BatchCollects(s, dateText, total, true, st, incs);
    if |incs| > 0 {
      var init := incs[..|incs| - 1];
      BatchReplaces(s, dateText, total, st, init);
      var mid := Batch(s, dateText, total, true, st, init);
      var e := BatchSplit(s, dateText, total, true, st, incs);
      StepReplaces(total, mid, incs[|incs| - 1].id, e);
      var m := BatchMoved(s, dateText, total, true, st, init);
      var tail := if e.stored.Some? then [ListImage(incs[|incs| - 1].id, e.stored.value)] else [];
      MovedEntriesSplit(incs, BatchEffects(s, dateText, total, true, st, init), e);
      assert BatchMoved(s, dateText, total, true, st, incs) == m + tail;
    }
  }

  /** One file: `fileDatas` gains at most one entry, and a final report carries all of it. */
  lemma StepReports(total: nat, update: bool, st: BatchState, id: string, e: Effects)
    requires Consistent(e)
    ensures var r := StepWith(total, update, st, id, e);
            && st.fileDatas <= r.fileDatas && |r.fileDatas| <= |st.fileDatas| + 1
            && st.calls <= r.calls && |r.calls| <= |st.calls| + 1
            && (|r.calls| > |st.calls| && r.calls[|st.calls|].AllStored? ==>
                  r.calls[|st.calls|] == AllStored(r.fileDatas) && |r.fileDatas| == total)
  {
  }

  /**
   * `fileDatas` only grows, by at most one entry per file; the callback is
   * called at most once per file; and every `callback(null, fileDatas)` of the
   * batch carries exactly `total` entries, a prefix of the final `fileDatas`.
   */
  lemma {:induction false} BatchReportsTotal(s: Settings, dateText: string, total: nat, update: bool,
                                             st: BatchState, incs: seq<Incoming>)
    ensures var r := Batch(s, dateText, total, update, st, incs);
            && st.fileDatas <= r.fileDatas && |r.fileDatas| <= |st.fileDatas| + |incs|
            && st.calls <= r.calls && |r.calls| <= |st.calls| + |incs|
            && forall k :: |st.calls| <= k < |r.calls| && r.calls[k].AllStored? ==>
                 |r.calls[k].fileDatas| == total && r.calls[k].fileDatas <= r.fileDatas
    decreases |incs|
  {
    if |incs| > 0 {
      var init := incs[..|incs| - 1];
      var last := incs[|incs| - 1];
      BatchReportsTotal(s, dateText, total, update, st, init);
      var mid := Batch(s, dateText, total, update, st, init);
      var e := BatchSplit(s, dateText, total, update, st, incs);
      StepReports(total, update, mid, last.id, e);
      var r := StepWith(total, update, mid, last.id, e);
      forall k | |st.calls| <= k < |r.calls| && r.calls[k].AllStored?
        ensures |r.calls[k].fileDatas| == total && r.calls[k].fileDatas <= r.fileDatas
      {
        if k < |mid.calls| {
          assert r.calls[k] == mid.calls[k];
          assert mid.calls[k].fileDatas <= mid.fileDatas;
        } else {
          assert k == |mid.calls|;
        }
      }
    }
  }

  /**
   * For a whole batch (`total` is the number of files), a
   * `callback(null, fileDatas)` is made only when every file's pipeline
   * stored its file, and it carries every stored attachment.
   */
  lemma AllStoredOnlyWhenAllMoved(s: Settings, dateText: string, update: bool, files: set<string>,
                                  images: seq<ListImage>, incs: seq<Incoming>)
    ensures var st := BatchState(files, images, [], []);
            var r := Batch(s, dateText, |incs|, update, st, incs);
            forall k :: 0 <= k < |r.calls| && r.calls[k].AllStored? ==>
              && r.calls[k].fileDatas == r.fileDatas
              && r.fileDatas == ImagesOf(BatchMoved(s, dateText, |incs|, update, st, incs))
              && forall i :: 0 <= i < |incs| ==>
                   BatchEffects(s, dateText, |incs|, update, st, incs)[i].stored.Some?
  {
    var st := BatchState(files, images, [], []);
    BatchReportsTotal(s, dateText, |incs|, update, st, incs);
    BatchCollects(s, dateText, |incs|, update, st, incs);
    AllMovedExactly(incs, BatchEffects(s, dateText, |incs|, update, st, incs));
    assert [] + ImagesOf(BatchMoved(s, dateText, |incs|, update, st, incs))
           == ImagesOf(BatchMoved(s, dateText, |incs|, update, st, incs));
  }

  /** A file whose post-move hooks fail is listed, collected and reported as an error. */
  lemma StepPostMoveFailure(total: nat, update: bool, st: BatchState, id: string, e: Effects)
    requires Consistent(e) && e.stored.Some? && e.verdict.Failure?
    ensures var r := StepWith(total, update, st, id, e);
            && r.fileDatas == st.fileDatas + [e.stored.value]
            && r.calls == st.calls + [FileFailed(e.verdict.error)]
  {
  }

  /** A file that goes through and completes `fileDatas` ends the batch with the full `fileDatas`. */
  lemma StepCompletes(total: nat, update: bool, st: BatchState, id: string, e: Effects)
    requires Consistent(e) && e.verdict.Success?
    requires |st.fileDatas| + 1 == total
    ensures var r := StepWith(total, update, st, id, e);
            && r.fileDatas == st.fileDatas + [e.stored.value]
            && r.calls == st.calls + [AllStored(r.fileDatas)]
  {
  }

  /** The last file's post-move hooks passing, with every file moved, ends the batch with `fileDatas`. */
  lemma LastFileReportsAll(s: Settings, dateText: string, total: nat, update: bool, st: BatchState, incs: seq<Incoming>)
    requires |incs| > 0 && total == |st.fileDatas| + |incs|
    requires var mid := Batch(s, dateText, total, update, st, incs[..|incs| - 1]);
             && |mid.fileDatas| == total - 1
             && UploadPipeline(s, dateText, mid.files, incs[|incs| - 1].attempt).verdict.Success?
    ensures var r := Batch(s, dateText, total, update, st, incs);
            |r.calls| > 0 && r.calls[|r.calls| - 1] == AllStored(r.fileDatas)
  {
    var mid := Batch(s, dateText, total, update, st, incs[..|incs| - 1]);
    var e := UploadPipeline(s, dateText, mid.files, incs[|incs| - 1].attempt);
    BatchLast(s, dateText, total, update, st, incs);
    assert Consistent(e);
    assert e.verdict.Success?;
    assert |mid.fileDatas| + 1 == total;
    StepCompletes(total, update, mid, incs[|incs| - 1].id, e);
  }

  lemma AppendTwo<T>(a: seq<T>, x: T, y: T)
    ensures a + [x] + [y] == a + [x, y]
  {
  }

  /**
   * A file whose post-move hooks fail still counts towards `fileDatas`: when
   * it is followed by the last file of the batch and that file goes through,
   * the callback is first given the error and then the full `fileDatas`.
   */
  lemma ErrorThenAllStored(s: Settings, dateText: string, total: nat, update: bool, st: BatchState,
                           first: Incoming, second: Incoming)
    requires UploadPipeline(s, dateText, st.files, first.attempt).stored.Some?
    requires UploadPipeline(s, dateText, st.files, first.attempt).verdict.Failure?
    requires UploadPipeline(s, dateText, UploadPipeline(s, dateText, st.files, first.attempt).files,
                            second.attempt).verdict.Success?
    requires |st.fileDatas| + 2 == total
    ensures var e1 := UploadPipeline(s, dateText, st.files, first.attempt);
            var e2 := UploadPipeline(s, dateText, e1.files, second.attempt);
            var r := UploadStep(s, dateText, total, update, UploadStep(s, dateText, total, update, st, first), second);
            && r.fileDatas == st.fileDatas + [e1.stored.value, e2.stored.value]
            && r.calls == st.calls + [FileFailed(e1.verdict.error), AllStored(r.fileDatas)]
  {
    var e1 := UploadPipeline(s, dateText, st.files, first.attempt);
    PipelineConsistent(s, dateText, st.files, first.attempt);
    var mid := StepWith(total, update, st, first.id, e1);
    StepPostMoveFailure(total, update, st, first.id, e1);
    var e2 := UploadPipeline(s, dateText, mid.files, second.attempt);
    PipelineConsistent(s, dateText, mid.files, second.attempt);
    StepCompletes(total, update, mid, second.id, e2);
    AppendTwo(st.fileDatas, e1.stored.value, e2.stored.value);
    AppendTwo(st.calls, FileFailed(e1.verdict.error), AllStored(st.fileDatas + [e1.stored.value, e2.stored.value]));
  }

  /**
   * One file's callback calls: a failing file gives `callback(err)` with its
   * error, a passing file that brings `fileDatas` to `total` gives
   * `callback(null, fileDatas)`, and any other passing file gives none.
   */
  lemma StepCalls(total: nat, update: bool, st: BatchState, id: string, e: Effects)
    requires Consistent(e)
    ensures var r := StepWith(total, update, st, id, e);
            && (e.verdict.Failure? ==> r.calls == st.calls + [FileFailed(e.verdict.error)])
            && (e.verdict.Success? && |r.fileDatas| == total ==> r.calls == st.calls + [AllStored(r.fileDatas)])
            && (e.verdict.Success? && |r.fileDatas| != total ==> r.calls == st.calls)
  {
  }

  /**
   * One file run through the pipeline: a disallowed type, an aborted
   * `pre.move` chain and a failed move each end in `callback(err)` with that
   * error, and leave the list and `fileDatas` alone.
   */
  lemma UploadStepRejects(s: Settings, dateText: string, total: nat, update: bool, st: BatchState, inc: Incoming)
    ensures var a := inc.attempt;
            var r := UploadStep(s, dateText, total, update, st, inc);
            && (!TypeAllowed(s.allowedTypes, a.file.mimeType) ==>
                  r == BatchState(st.files, st.images, st.fileDatas, st.calls + [FileFailed(UnsupportedFileType(a.file.mimeType))]))
            && (TypeAllowed(s.allowedTypes, a.file.mimeType) && RunChain(a.pre).Aborted? ==>
                  r == BatchState(st.files, st.images, st.fileDatas,
                                  st.calls + [FileFailed(PreMoveFailed(RunChain(a.pre).at, RunChain(a.pre).message))]))
            && (TypeAllowed(s.allowedTypes, a.file.mimeType) && RunChain(a.pre).Completed? && a.move.Fail? ==>
                  r == BatchState(st.files, st.images, st.fileDatas, st.calls + [FileFailed(MoveFailed(a.move.message))]))
  {
  }

  /** The callback call, if any, of a file with effects `e` once `fileDatas` is `datas`. */
  function CallOf(total: nat, datas: seq<Attachment>, e: Effects): (r: seq<BatchCall>)
    ensures |r| <= 1
  {
    if e.verdict.Failure? then [FileFailed(e.verdict.error)]
    else if |datas| == total then [AllStored(datas)]
    else []
  }

  /** The callback calls of files with effects `es`, in file order, starting from `fileDatas == base`. */
  function Reports(total: nat, base: seq<Attachment>, incs: seq<Incoming>, es: seq<Effects>): (r: seq<BatchCall>)
    requires |es| == |incs|
    ensures |r| <= |incs|
    decreases |incs|
  {
    if |incs| == 0 then []
    else
      var n := |incs| - 1;
      Reports(total, base, incs[..n], es[..n]) + CallOf(total, base + ImagesOf(MovedEntries(incs, es)), es[n])
  }

  lemma ReportsSplit(total: nat, base: seq<Attachment>, incs: seq<Incoming>, es: seq<Effects>, e: Effects)
    requires |es| + 1 == |incs|
    ensures Reports(total, base, incs, es + [e])
            == Reports(total, base, incs[..|es|], es) + CallOf(total, base + ImagesOf(MovedEntries(incs, es + [e])), e)
  {
    assert (es + [e])[..|es|] == es;
  }

  /** A batch makes exactly the calls its files' effects give, in file order. */
  lemma {:induction false} BatchCalls(s: Settings, dateText: string, total: nat, update: bool, st: BatchState,
                                      incs: seq<Incoming>)
    ensures Batch(s, dateText, total, update, st, incs).calls
            == st.calls + Reports(total, st.fileDatas, incs, BatchEffects(s, dateText, total, update, st, incs))
    decreases |incs|
  {
    if |incs| > 0 {
      var init := incs[..|incs| - 1];
      BatchCalls(s, dateText, total, update, st, init);
      var mid := Batch(s, dateText, total, update, st, init);
      var e := BatchSplit(s, dateText, total, update, st, incs);
      var es := BatchEffects(s, dateText, total, update, st, init);
      BatchCollects(s, dateText, total, update, st, incs);
      StepCalls(total, update, mid, incs[|incs| - 1].id, e);
      ReportsSplit(total, st.fileDatas, incs, es, e);
      AppendAssoc(st.calls, Reports(total, st.fileDatas, init, es),
                  CallOf(total, st.fileDatas + ImagesOf(BatchMoved(s, dateText, total, update, st, incs)), e));
    }
  }

  /** The errors of the failing files, in file order. */
  function FailedErrors(es: seq<Effects>): (r: seq<UploadError>)
    ensures |r| <= |es|
    decreases |es|
  {
    if |es| == 0 then []
    else
      var n := |es| - 1;
      FailedErrors(es[..n]) + (if es[n].verdict.Failure? then [es[n].verdict.error] else [])
  }

  /** The errors the callback was given, in call order. */
  function Failures(calls: seq<BatchCall>): (r: seq<UploadError>)
    ensures |r| <= |calls|
    decreases |calls|
  {
    if |calls| == 0 then []
    else
      var n := |calls| - 1;
      Failures(calls[..n]) + (if calls[n].FileFailed? then [calls[n].error] else [])
  }

  lemma {:induction false} FailuresAppend(a: seq<BatchCall>, b: seq<BatchCall>)
    ensures Failures(a + b) == Failures(a) + Failures(b)
    decreases |b|
  {
    if |b| > 0 {
      var n := |b| - 1;
      assert (a + b)[..|a| + n] == a + b[..n];
      FailuresAppend(a, b[..n]);
      assert (a + b)[|a| + n] == b[n];
    } else {
      assert a + b == a;
    }
  }

  /** A file's call carries its error exactly when it failed. */
  lemma CallFailures(total: nat, datas: seq<Attachment>, e: Effects)
    ensures Failures(CallOf(total, datas, e)) == (if e.verdict.Failure? then [e.verdict.error] else [])
  {
    var c := CallOf(total, datas, e);
    if |c| == 1 {
      assert c[..0] == [];
    }
  }

  lemma FailedErrorsSplit(es: seq<Effects>, e: Effects)
    ensures FailedErrors(es + [e]) == FailedErrors(es) + (if e.verdict.Failure? then [e.verdict.error] else [])
  {
    assert (es + [e])[..|es|] == es;
  }

  /**
   * Every failing file of a batch, whether refused by type, by a `pre.move`
   * hook, by the move or by a `post.move` hook, gives the callback its error,
   * and these errors reach the callback in file order and no others.
   */
  lemma {:induction false} BatchErrors(s: Settings, dateText: string, total: nat, update: bool, st: BatchState,
                                       incs: seq<Incoming>)
    ensures Failures(Batch(s, dateText, total, update, st, incs).calls)
            == Failures(st.calls) + FailedErrors(BatchEffects(s, dateText, total, update, st, incs))
    decreases |incs|
  {
    if |incs| == 0 {
      assert st.calls + [] == st.calls;
    } else {
      var init := incs[..|incs| - 1];
      BatchErrors(s, dateText, total, update, st, init);
      var mid := Batch(s, dateText, total, update, st, init);
      var e := BatchSplit(s, dateText, total, update, st, incs);
      var r := StepWith(total, update, mid, incs[|incs| - 1].id, e);
      var c := CallOf(total, r.fileDatas, e);
      assert r.calls == mid.calls + c by {
        StepCalls(total, update, mid, incs[|incs| - 1].id, e);
      }
      FailuresAppend(mid.calls, c);
      CallFailures(total, r.fileDatas, e);
      FailedErrorsSplit(BatchEffects(s, dateText, total, update, st, init), e);
      AppendAssoc(Failures(st.calls), FailedErrors(BatchEffects(s, dateText, total, update, st, init)), Failures(c));
    }
  }

  // ---------------------------------------------------------------------
  // The record's list and the operations that change it

  lemma ApplyRemovalsStep(files: set<string>, images: seq<ListImage>, rs: seq<Removal>, i: nat,
                          dest: string, tokens: seq<string>)
    requires i < |rs|
    ensures var (files1, images1) := ApplyRemovals(files, images, rs[..i], dest, tokens);
            ApplyRemovals(files, images, rs[..i + 1], dest, tokens)
              == RemoveEffect(files1, images1, ByString(rs[i].id), rs[i].mode, dest, tokens)
  {
    assert rs[..i + 1][..i] == rs[..i];
  }

  /** Unlinks each derivative of `name` that exists, as the `delete` mode of `removeImage` does. */
  method UnlinkDerivatives(fs: FileSystem, dest: string, name: string, tokens: seq<string>)
    modifies fs
    ensures fs.files == old(fs.files) - DerivativePaths(dest, name, tokens)
  {
    var paths := DerivativeList(dest, name, tokens);
    UnlinkExisting(fs, paths);
    DerivativeListPaths(dest, name, tokens);
  }

  /** Unlinks each path in turn when it exists. */
  method UnlinkExisting(fs: FileSystem, paths: seq<string>)
    modifies fs
    ensures fs.files == old(fs.files) - set p | p in paths
  {
    var i := 0;
    while i < |paths|
      invariant 0 <= i <= |paths|
      invariant fs.files == old(fs.files) - set p | p in paths[..i]
    {
      assert paths[..i + 1] == paths[..i] + [paths[i]];
      if fs.ExistsSync(paths[i]) {
        fs.Unlink(paths[i]);
      }
      i := i + 1;
    }
    assert paths[..i] == paths;
  }

  /** A form submission on the list: order and action fields (empty when absent) and the uploaded files. */
  datatype ListRequest = ListRequest(order: string, action: string, uploads: seq<Incoming>)

  datatype ListReply = NoUpload | Uploaded(calls: seq<BatchCall>)

  /** The hook outcomes of every upload line up with the field's queues. */
  predicate HooksMatch(field: ImageField, incs: seq<Incoming>)
    reads field
  {
    forall i :: 0 <= i < |incs| ==>
      |incs[i].attempt.pre| == |field.preMove| && |incs[i].attempt.post| == |field.postMove|
  }

  class ImagesRecord {
    var images: seq<ListImage>

    constructor (images: seq<ListImage>)
      ensures this.images == images
    {
      this.images := images;
    }

    /**
     * `removeImage(item, id, method)`: resolves the entry, in `delete` mode
     * unlinks its file and its derivatives where they exist, and splices it out.
     */
    method RemoveImage(field: ImageField, fs: FileSystem, t: Target, mode: RemovalMode)
      modifies this`images, fs
      ensures (fs.files, images) == RemoveEffect(old(fs.files), old(images), t, mode,
                                                 field.settings.dest, field.settings.resample)
    {
      var k: int;
      match t {
        case ByNumber(n) =>
          k := n;
        case ByString(id) =>
          k := FindById(images, id);
          if k < 0 {
            match IndexKey(id) {
              case Some(n) => k := n;
              case None => k := -1;
            }
          }
      }
      ghost var files0 := fs.files;
      if 0 <= k < |images| {
        assert ResolveTarget(images, t) == Some(k);
        var img := images[k].image;
        if mode == Delete {
          var origPath := StoredAt(img);
          if fs.ExistsSync(origPath) {
            fs.Unlink(origPath);
          }
          assert fs.files == files0 - {origPath};
          UnlinkDerivatives(fs, field.settings.dest, img.filename, field.settings.resample);
          assert fs.files == RemovalFiles(files0, img, field.settings.dest, field.settings.resample);
        }
        images := RemovedAt(images, k);
      } else {
        assert ResolveTarget(images, t).None?;
      }
    }

    /** The removals of an action directive, one `removeImage` per id. */
    method ApplyActions(field: ImageField, fs: FileSystem, directive: string)
      modifies this`images, fs
      ensures (fs.files, images) == ApplyRemovals(old(fs.files), old(images), ParseActions(directive),
                                                  field.settings.dest, field.settings.resample)
    {
      var rs := ParseActions(directive);
      var i := 0;
      while i < |rs|
        invariant 0 <= i <= |rs|
        invariant (fs.files, images) == ApplyRemovals(old(fs.files), old(images), rs[..i],
                                                      field.settings.dest, field.settings.resample)
      {
        ApplyRemovalsStep(old(fs.files), old(images), rs, i, field.settings.dest, field.settings.resample);
        RemoveImage(field, fs, ByString(rs[i].id), rs[i].mode);
        i := i + 1;
      }
      assert rs[..i] == rs;
    }

    /**
     * `uploadFiles(item, files, update, callback)`: the files one after
     * another; returns the calls made to `callback`.
     */
    method UploadFiles(field: ImageField, fs: FileSystem, dateText: string, incs: seq<Incoming>, update: bool)
        returns (calls: seq<BatchCall>)
      requires HooksMatch(field, incs)
      modifies this`images, fs
      ensures var r := Batch(field.settings, dateText, |incs|, update, BatchState(old(fs.files), old(images), [], []), incs);
              fs.files == r.files && images == r.images && calls == r.calls
    {
      var fileDatas: seq<Attachment> := [];
      calls := [];
      ghost var st0 := BatchState(fs.files, images, [], []);
      var i := 0;
      while i < |incs|
        invariant 0 <= i <= |incs|
        invariant BatchState(fs.files, images, fileDatas, calls)
                  == Batch(field.settings, dateText, |incs|, update, st0, incs[..i])
      {
        BatchStep(field.settings, dateText, |incs|, update, st0, incs, i);
        var inc := incs[i];
        var verdict, stored := Perform(field, fs, dateText, inc.attempt);
        if stored.Some? {
          var entry := ListImage(inc.id, stored.value);
          if update {
            images := [entry];
          } else {
            images := images + [entry];
          }
          fileDatas := fileDatas + [stored.value];
        }
        if verdict.Failure? {
          calls := calls + [FileFailed(verdict.error)];
        } else if |fileDatas| == |incs| {
          calls := calls + [AllStored(fileDatas)];
        }
        i := i + 1;
      }
      assert incs[..i] == incs;
    }

    /**
     * `getRequestHandler(item, req)()`: reorders, then applies the action
     * directive, then uploads the files (appending to the list).
     */
    method HandleRequest(field: ImageField, fs: FileSystem, dateText: string, req: ListRequest)
        returns (reply: ListReply)
      requires HooksMatch(field, req.uploads)
      modifies this`images, fs
      ensures var sorted := if req.order != "" then SortByOrder(Split(req.order, ','), old(images)) else old(images);
              var (files1, images1) :=
                if req.action != "" then
                  ApplyRemovals(old(fs.files), sorted, ParseActions(req.action), field.settings.dest, field.settings.resample)
                else (old(fs.files), sorted);
              if |req.uploads| > 0 then
                var r := Batch(field.settings, dateText, |req.uploads|, false, BatchState(files1, images1, [], []), req.uploads);
                reply == Uploaded(r.calls) && fs.files == r.files && images == r.images
              else
                reply == NoUpload && fs.files == files1 && images == images1
    {
      if req.order != "" {
        Reorder(req.order);
      }
      if req.action != "" {
        ApplyActions(field, fs, req.action);
      }
      if |req.uploads| > 0 {
        var calls := UploadFiles(field, fs, dateText, req.uploads, false);
        reply := Uploaded(calls);
      } else {
        reply := NoUpload;
      }
    }

    /** Reorders the list by an order directive. */
    method Reorder(directive: string)
      modifies this`images
      ensures images == SortByOrder(Split(directive, ','), old(images))
    {
      images := SortByOrder(Split(directive, ','), images);
    }
  }
}
