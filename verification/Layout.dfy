/** How a profile page groups its entries: loose ones first, then one group for each folder,
    in the order the presentation declares and then in order of first appearance. */
module Layout {
  import opened Text
  import Scanner
  import Theme
  import ThemeTable
  import FolderNames

  /** What the grouping looks at; `content` stands for the rest of an entry. */
  datatype Entry = Entry(folder: Option<string>, content: string)

  datatype Group = Group(folder: string, open: bool, items: seq<Entry>)

  datatype ProfileLayout = ProfileLayout(foldersOpen: bool, openFolders: seq<string>, folderOrder: seq<string>)

  // -- the layout a presentation declares --------------------------------------------------

  function ValueOf(declarations: seq<Theme.Declaration>, property: string): Option<string> {
    match Theme.IndexOf(declarations, property)
    case Some(i) => Some(declarations[i].value)
    case None => None
  }

  /** In an accepted presentation, the value of a property is the one that is declared. */
  lemma ValueOfExact(declarations: seq<Theme.Declaration>, property: string, value: string)
    requires Theme.Distinct(declarations)
    ensures ValueOf(declarations, property) == Some(value) <==> Theme.Declaration(property, value) in declarations
  {
    if Theme.Declaration(property, value) in declarations {
      var i :| 0 <= i < |declarations| && declarations[i] == Theme.Declaration(property, value);
    }
  }

  function NamesOf(declarations: seq<Theme.Declaration>, property: string): seq<string> {
    match ValueOf(declarations, property)
    case None => []
    case Some(list) =>
      match FolderNames.ReadArray("[" + list + "]")
      case None => []
      case Some(names) => names
  }

  function LayoutOf(declarations: seq<Theme.Declaration>): ProfileLayout {
    ProfileLayout(
      ValueOf(declarations, ThemeTable.FOLDERS) != Some("closed"),
      NamesOf(declarations, ThemeTable.OPEN_FOLDERS),
      NamesOf(declarations, ThemeTable.FOLDER_ORDER))
  }

  /** The names a page reads out of a stored presentation are the names that were accepted:
      valid, distinct, and written back as the stored value. */
  lemma StoredNamesAreRead(g: Theme.Grammar, input: string, property: string)
    requires Theme.GrammarOk(g) && Theme.Parse(g, input).Ok?
    requires Theme.Lookup(g.properties, property) == Some(Theme.Folders)
    ensures var ds := Theme.Parse(g, input).value;
            match ValueOf(ds, property)
            case None => NamesOf(ds, property) == []
            case Some(list) => FolderNames.ValidNames(NamesOf(ds, property)) && FolderNames.Render(NamesOf(ds, property)) == list
  {
    var ds := Theme.Parse(g, input).value;
    Theme.FoldAccepted(g, Scanner.Split(Scanner.Outside, Scanner.Strip(Scanner.Outside, input).value), []);
    match Theme.IndexOf(ds, property)
    case None =>
    case Some(i) =>
      var raw :| Theme.Canonicalize(g, Theme.Folders, raw) == Some(ds[i].value);
      var names := FolderNames.ReadArray("[" + raw + "]").value;
      FolderNames.ReadArrayOfRender(names, ", ");
  }

  // -- grouping ------------------------------------------------------------------------------

  function Loose(entries: seq<Entry>): seq<Entry> {
    if entries == [] then []
    else
      var n := |entries| - 1;
      Loose(entries[..n]) + (if entries[n].folder.None? then [entries[n]] else [])
  }

  /** The entries of a folder, in the order they come. */
  function Items(entries: seq<Entry>, folder: string): seq<Entry> {
    if entries == [] then []
    else
      var n := |entries| - 1;
      Items(entries[..n], folder) + (if entries[n].folder == Some(folder) then [entries[n]] else [])
  }

  /** The folders of the entries, in the order they first appear. */
  function FirstSeen(entries: seq<Entry>): seq<string> {
    if entries == [] then []
    else
      var n := |entries| - 1;
      var before := FirstSeen(entries[..n]);
      before + (if entries[n].folder.Some? && entries[n].folder.value !in before then [entries[n].folder.value] else [])
  }

  /** The first occurrence of each present folder in `chain`. */
  function Placed(chain: seq<string>, present: set<string>): seq<string> {
    if chain == [] then []
    else
      var n := |chain| - 1;
      var before := Placed(chain[..n], present);
      before + (if chain[n] in present && chain[n] !in before then [chain[n]] else [])
  }

  function FolderOrder(layout: ProfileLayout, entries: seq<Entry>): seq<string> {
    var first := FirstSeen(entries);
    Placed(layout.folderOrder + first, set f | f in first)
  }

  function GroupOf(layout: ProfileLayout, entries: seq<Entry>, folder: string): Group {
    Group(folder, layout.foldersOpen || folder in layout.openFolders, Items(entries, folder))
  }

  method Arrange(layout: ProfileLayout, entries: seq<Entry>) returns (loose: seq<Entry>, groups: seq<Group>)
    ensures loose == Loose(entries)
    ensures |groups| == |FolderOrder(layout, entries)|
    ensures forall k :: 0 <= k < |groups| ==> groups[k] == GroupOf(layout, entries, FolderOrder(layout, entries)[k])
  {
    var l, folders, first := Gather(entries);
    loose := l;
    var order := Place(layout.folderOrder + first, folders);
    assert folders.Keys == set f | f in first;
    forall f | f in order ensures f in folders { PlacedMembers(layout.folderOrder + first, folders.Keys, f); }
    groups := Fill(layout, entries, folders, order);
  }

  /** The loop over the placed folders. */
  method Fill(layout: ProfileLayout, ghost entries: seq<Entry>, folders: map<string, seq<Entry>>, order: seq<string>)
    returns (groups: seq<Group>)
    requires forall f :: f in order ==> f in folders && folders[f] == Items(entries, f)
    ensures |groups| == |order|
    ensures forall k :: 0 <= k < |groups| ==> groups[k] == GroupOf(layout, entries, order[k])
  {
    groups := [];
    for i := 0 to |order|
      invariant |groups| == i
      invariant forall k :: 0 <= k < i ==> groups[k] == GroupOf(layout, entries, order[k])
    {
      var folder := order[i];
      groups := groups + [Group(folder, layout.foldersOpen || folder in layout.openFolders, folders[folder])];
    }
  }

  /** The loop over the declared and the seen folders. */
  method Place(chain: seq<string>, folders: map<string, seq<Entry>>) returns (order: seq<string>)
    ensures order == Placed(chain, folders.Keys)
  {
    order := [];
    var placed: set<string> := {};
    for i := 0 to |chain|
      invariant order == Placed(chain[..i], folders.Keys) && placed == set f | f in order
    {
      assert chain[..i + 1][..i] == chain[..i];
      if chain[i] in folders && chain[i] !in placed {
        placed := placed + {chain[i]};
        order := order + [chain[i]];
      }
    }
    assert chain[..|chain|] == chain;
  }

  /** The folders the loop over the entries has seen. */
  ghost predicate SeenIn(entries: seq<Entry>, folders: set<string>, first: seq<string>) {
    first == FirstSeen(entries) && forall f :: f in folders <==> f in first
  }

  /** What the loop over the entries has filed. */
  ghost predicate FiledIn(entries: seq<Entry>, folders: map<string, seq<Entry>>) {
    forall f :: Items(entries, f) == Filed(folders, f)
  }

  function Filed(folders: map<string, seq<Entry>>, f: string): seq<Entry> {
    if f in folders then folders[f] else []
  }

  lemma SeenStep(before: seq<Entry>, entry: Entry, folders: set<string>, first: seq<string>)
    requires SeenIn(before, folders, first)
    ensures match entry.folder
            case None => SeenIn(before + [entry], folders, first)
            case Some(f) => SeenIn(before + [entry], folders + {f}, if f in folders then first else first + [f])
  {
    assert (before + [entry])[..|before|] == before;
  }

  lemma FiledStep(before: seq<Entry>, entry: Entry, folders: map<string, seq<Entry>>)
    requires FiledIn(before, folders)
    ensures match entry.folder
            case None => FiledIn(before + [entry], folders)
            case Some(f) => FiledIn(before + [entry], folders[f := Filed(folders, f) + [entry]])
  {
    forall f ensures Items(before + [entry], f) == Filed(folders, f) + (if entry.folder == Some(f) then [entry] else []) {
      ItemsSnoc(before, entry, f);
    }
  }

  lemma LooseSnoc(before: seq<Entry>, last: Entry)
    ensures Loose(before + [last]) == Loose(before) + (if last.folder.None? then [last] else [])
  {
    assert (before + [last])[..|before|] == before;
  }

  lemma PrefixSnoc(entries: seq<Entry>, i: nat)
    requires i < |entries|
    ensures entries[..i + 1] == entries[..i] + [entries[i]]
  {
  }

  /** The loop over the entries. */
  method Gather(entries: seq<Entry>)
    returns (loose: seq<Entry>, folders: map<string, seq<Entry>>, first: seq<string>)
    ensures loose == Loose(entries)
    ensures SeenIn(entries, folders.Keys, first) && FiledIn(entries, folders)
  {
    loose, folders, first := [], map[], [];
    for i := 0 to |entries|
      invariant loose == Loose(entries[..i])
      invariant SeenIn(entries[..i], folders.Keys, first) && FiledIn(entries[..i], folders)
    {
      var entry := entries[i];
      ghost var before := entries[..i];
      LooseSnoc(before, entry);
      SeenStep(before, entry, folders.Keys, first);
      FiledStep(before, entry, folders);
      PrefixSnoc(entries, i);
      if entry.folder.Some? {
        var folder := entry.folder.value;
        if folder !in folders { first := first + [folder]; }
        folders := folders[folder := Filed(folders, folder) + [entry]];
      } else {
        loose := loose + [entry];
      }
    }
    assert entries[..|entries|] == entries;
  }

  // -- order -----------------------------------------------------------------------------------

  lemma {:induction false} PlacedMembers(chain: seq<string>, present: set<string>, f: string)
    ensures f in Placed(chain, present) <==> f in chain && f in present
  {
    if chain != [] {
      PlacedMembers(chain[..|chain| - 1], present, f);
    }
  }

  /** Where a name first stands in a list. */
  function First(chain: seq<string>, f: string): nat
    requires f in chain
  {
    if chain[0] == f then 0 else 1 + First(chain[1..], f)
  }

  lemma {:induction false} FirstAt(chain: seq<string>, f: string)
    requires f in chain
    ensures First(chain, f) < |chain| && chain[First(chain, f)] == f
    ensures forall i :: 0 <= i < First(chain, f) ==> chain[i] != f
  {
    if chain[0] != f { FirstAt(chain[1..], f); }
  }

  lemma FirstIs(chain: seq<string>, f: string, i: nat)
    requires i < |chain| && chain[i] == f && forall j :: 0 <= j < i ==> chain[j] != f
    ensures First(chain, f) == i
  {
    FirstAt(chain, f);
  }

  /** Names are placed in the order they first stand in the chain, each once. */
  lemma {:induction false} PlacedInOrder(chain: seq<string>, present: set<string>, i: nat, j: nat)
    requires i < j < |Placed(chain, present)|
    ensures var order := Placed(chain, present);
            order[i] in chain && order[j] in chain && First(chain, order[i]) < First(chain, order[j])
  {
    var n := |chain| - 1;
    var before, order := Placed(chain[..n], present), Placed(chain, present);
    PlacedMembers(chain, present, order[i]);
    PlacedMembers(chain, present, order[j]);
    FirstAt(chain, order[i]);
    FirstAt(chain, order[j]);
    if j < |before| {
      PlacedInOrder(chain[..n], present, i, j);
      FirstInPrefix(chain, n, order[i]);
      FirstInPrefix(chain, n, order[j]);
    } else {
      assert order[i] in before;
      PlacedMembers(chain[..n], present, order[i]);
      PlacedMembers(chain[..n], present, order[j]);
      FirstInPrefix(chain, n, order[i]);
      FirstAt(chain[..n], order[i]);
      assert chain[..n][..n] == chain[..n];
      FirstIs(chain, order[j], n);
    }
  }

  lemma FirstInPrefix(chain: seq<string>, n: nat, f: string)
    requires n <= |chain| && f in chain[..n]
    ensures f in chain && First(chain, f) == First(chain[..n], f)
  {
    FirstAt(chain[..n], f);
    FirstIs(chain, f, First(chain[..n], f));
  }

  /** Where a folder first appears among the entries. */
  ghost predicate AppearsFirst(entries: seq<Entry>, f: string, at: nat) {
    at < |entries| && entries[at].folder == Some(f) && forall k :: 0 <= k < at ==> entries[k].folder != Some(f)
  }

  lemma {:induction false} FirstSeenMembers(entries: seq<Entry>, f: string)
    ensures f in FirstSeen(entries) <==> exists k :: 0 <= k < |entries| && entries[k].folder == Some(f)
  {
    if entries != [] {
      var n := |entries| - 1;
      FirstSeenMembers(entries[..n], f);
      if k :| 0 <= k < n && entries[..n][k].folder == Some(f) { assert entries[k].folder == Some(f); }
      if k :| 0 <= k < |entries| && entries[k].folder == Some(f) {
        if k < n { assert entries[..n][k].folder == Some(f); }
      }
    }
  }

  /** Folders are first seen in the order of their first entries, each once. */
  lemma {:induction false} FirstSeenInOrder(entries: seq<Entry>, i: nat, j: nat, a: nat, b: nat)
    requires i < j < |FirstSeen(entries)|
    requires AppearsFirst(entries, FirstSeen(entries)[i], a) && AppearsFirst(entries, FirstSeen(entries)[j], b)
    ensures a < b
  {
    var n := |entries| - 1;
    var before, first := FirstSeen(entries[..n]), FirstSeen(entries);
    if j < |before| {
      FirstSeenMembers(entries[..n], first[i]);
      FirstSeenMembers(entries[..n], first[j]);
      assert AppearsFirst(entries[..n], first[i], a) && AppearsFirst(entries[..n], first[j], b);
      FirstSeenInOrder(entries[..n], i, j, a, b);
    } else {
      assert first[i] in before;
      FirstSeenMembers(entries[..n], first[i]);
      FirstSeenMembers(entries[..n], first[j]);
      assert b == n;
      var k :| 0 <= k < n && entries[..n][k].folder == Some(first[i]);
      assert entries[k].folder == Some(first[i]);
    }
  }

  /** Which of two folders comes first on the page. */
  ghost predicate Before(layout: ProfileLayout, entries: seq<Entry>, f: string, g: string) {
    var declared := layout.folderOrder;
    if f in declared then g in declared ==> First(declared, f) < First(declared, g)
    else g !in declared && forall a, b :: AppearsFirst(entries, f, a) && AppearsFirst(entries, g, b) ==> a < b
  }

  lemma FirstBeyond(declared: seq<string>, first: seq<string>, f: string)
    requires f !in declared && f in first
    ensures f in declared + first && First(declared + first, f) == |declared| + First(first, f)
  {
    FirstAt(first, f);
    FirstIs(declared + first, f, |declared| + First(first, f));
  }

  lemma SeenBefore(entries: seq<Entry>, f: string, g: string, a: nat, b: nat)
    requires f in FirstSeen(entries) && g in FirstSeen(entries)
    requires First(FirstSeen(entries), f) < First(FirstSeen(entries), g)
    requires AppearsFirst(entries, f, a) && AppearsFirst(entries, g, b)
    ensures a < b
  {
    FirstAt(FirstSeen(entries), f);
    FirstAt(FirstSeen(entries), g);
    FirstSeenInOrder(entries, First(FirstSeen(entries), f), First(FirstSeen(entries), g), a, b);
  }

  /** The folders of a page are the folders of its entries, each once: the declared ones
      first, in declared order, then the others by first appearance. */
  lemma FoldersInOrder(layout: ProfileLayout, entries: seq<Entry>, i: nat, j: nat)
    requires i < j < |FolderOrder(layout, entries)|
    ensures var order := FolderOrder(layout, entries);
            order[i] != order[j] && Before(layout, entries, order[i], order[j])
  {
    var declared, first := layout.folderOrder, FirstSeen(entries);
    var chain, present := declared + first, set f | f in first;
    var f, g := FolderOrder(layout, entries)[i], FolderOrder(layout, entries)[j];
    PlacedInOrder(chain, present, i, j);
    PlacedMembers(chain, present, f);
    PlacedMembers(chain, present, g);
    assert chain[..|declared|] == declared;
    FirstAt(chain, f);
    FirstAt(chain, g);
    if f in declared { FirstInPrefix(chain, |declared|, f); } else { FirstBeyond(declared, first, f); }
    if g in declared {
      FirstInPrefix(chain, |declared|, g);
      FirstAt(declared, g);
    } else {
      FirstBeyond(declared, first, g);
    }
    if f !in declared && g !in declared {
      forall a, b | AppearsFirst(entries, f, a) && AppearsFirst(entries, g, b) ensures a < b {
        SeenBefore(entries, f, g, a, b);
      }
    }
  }

  lemma FoldersComplete(layout: ProfileLayout, entries: seq<Entry>, f: string)
    ensures f in FolderOrder(layout, entries) <==> exists k :: 0 <= k < |entries| && entries[k].folder == Some(f)
  {
    var first := FirstSeen(entries);
    PlacedMembers(layout.folderOrder + first, (set g | g in first), f);
    FirstSeenMembers(entries, f);
  }

  // -- what stored text makes of a page ----------------------------------------------------------

  /** The names of `a` that are among, or not among, those of `b`, in their order. */
  function Chosen(a: seq<string>, b: seq<string>, among: bool): seq<string> {
    if a == [] then []
    else
      var n := |a| - 1;
      Chosen(a[..n], b, among) + (if (a[n] in b) == among then [a[n]] else [])
  }

  lemma {:induction false} ChosenMembers(a: seq<string>, b: seq<string>, among: bool, f: string)
    ensures f in Chosen(a, b, among) <==> f in a && (f in b) == among
  {
    if a != [] { ChosenMembers(a[..|a| - 1], b, among, f); }
  }

  ghost predicate NoneTwice(names: seq<string>) {
    forall i, j :: 0 <= i < j < |names| ==> names[i] != names[j]
  }

  lemma {:induction false} FirstSeenOnce(entries: seq<Entry>)
    ensures NoneTwice(FirstSeen(entries))
  {
    if entries != [] { FirstSeenOnce(entries[..|entries| - 1]); }
  }

  lemma {:induction false} PlacedDeclared(declared: seq<string>, first: seq<string>)
    requires NoneTwice(declared)
    ensures Placed(declared, set f | f in first) == Chosen(declared, first, true)
  {
    if declared != [] {
      var n := |declared| - 1;
      PlacedDeclared(declared[..n], first);
      ChosenMembers(declared[..n], first, true, declared[n]);
    }
  }

  lemma PlacedSnoc(chain: seq<string>, x: string, present: set<string>)
    ensures Placed(chain + [x], present)
            == Placed(chain, present) + (if x in present && x !in Placed(chain, present) then [x] else [])
  {
    assert (chain + [x])[..|chain|] == chain;
  }

  lemma ChosenSnoc(a: seq<string>, x: string, b: seq<string>, among: bool)
    ensures Chosen(a + [x], b, among) == Chosen(a, b, among) + (if (x in b) == among then [x] else [])
  {
    assert (a + [x])[..|a|] == a;
  }

  /** A seen folder `x` that comes next is placed unless it is a declared one. */
  lemma OtherPlaced(declared: seq<string>, first: seq<string>, seen: seq<string>, x: string, before: seq<string>)
    requires x in first && x !in seen && before == Chosen(declared, first, true) + Chosen(seen, declared, false)
    ensures x in before <==> x in declared
  {
    ChosenMembers(declared, first, true, x);
    ChosenMembers(seen, declared, false, x);
  }

  lemma Associative(a: seq<string>, b: seq<string>, c: seq<string>)
    ensures a + (b + c) == (a + b) + c
  {
  }

  lemma NextPlaced(declared: seq<string>, first: seq<string>, present: set<string>, seen: seq<string>, x: string)
    requires x in present && x in first && x !in seen
    requires Placed(declared + seen, present) == Chosen(declared, first, true) + Chosen(seen, declared, false)
    ensures Placed(declared + (seen + [x]), present) == Chosen(declared, first, true) + Chosen(seen + [x], declared, false)
  {
    var added := if x in declared then [] else [x];
    assert Placed(declared + (seen + [x]), present) == Placed(declared + seen, present) + added by {
      Associative(declared, seen, [x]);
      PlacedSnoc(declared + seen, x, present);
      OtherPlaced(declared, first, seen, x, Placed(declared + seen, present));
    }
    ChosenSnoc(seen, x, declared, false);
    Associative(Chosen(declared, first, true), Chosen(seen, declared, false), added);
  }

  lemma {:induction false} PlacedOthers(declared: seq<string>, first: seq<string>, present: set<string>, seen: seq<string>)
    requires NoneTwice(declared) && NoneTwice(seen) && present == (set f | f in first) && forall f :: f in seen ==> f in first
    ensures Placed(declared + seen, present) == Chosen(declared, first, true) + Chosen(seen, declared, false)
  {
    if seen == [] {
      assert declared + seen == declared;
      PlacedDeclared(declared, first);
    } else {
      var n := |seen| - 1;
      PlacedOthers(declared, first, present, seen[..n]);
      NextPlaced(declared, first, present, seen[..n], seen[n]);
      assert seen == seen[..n] + [seen[n]];
    }
  }

  /** The page that `render_profile_main` makes of a stored presentation. */
  method ArrangeProfile(declarations: seq<Theme.Declaration>, entries: seq<Entry>) returns (loose: seq<Entry>, groups: seq<Group>)
    ensures var layout := LayoutOf(declarations);
            && loose == Loose(entries)
            && |groups| == |FolderOrder(layout, entries)|
            && forall k :: 0 <= k < |groups| ==> groups[k] == GroupOf(layout, entries, FolderOrder(layout, entries)[k])
  {
    loose, groups := Arrange(LayoutOf(declarations), entries);
  }

  /** Accepted text determines the page. Its folders are those of the accepted folder order that
      have entries, in that order, and then the others by first appearance. A group is closed only
      when the text closes folders and does not name this one as open. */
  lemma PageFollowsText(g: Theme.Grammar, input: string, entries: seq<Entry>)
    requires Theme.GrammarOk(g) && Theme.Parse(g, input).Ok?
    requires Theme.Lookup(g.properties, ThemeTable.FOLDER_ORDER) == Some(Theme.Folders)
    ensures var ds := Theme.Parse(g, input).value;
            var names, first := NamesOf(ds, ThemeTable.FOLDER_ORDER), FirstSeen(entries);
            && FolderOrder(LayoutOf(ds), entries) == Chosen(names, first, true) + Chosen(first, names, false)
            && (names != [] ==> FolderNames.ValidNames(names) && ValueOf(ds, ThemeTable.FOLDER_ORDER) == Some(FolderNames.Render(names)))
            && forall f :: !GroupOf(LayoutOf(ds), entries, f).open <==>
                             ValueOf(ds, ThemeTable.FOLDERS) == Some("closed") && f !in NamesOf(ds, ThemeTable.OPEN_FOLDERS)
  {
    var ds := Theme.Parse(g, input).value;
    var names, first := NamesOf(ds, ThemeTable.FOLDER_ORDER), FirstSeen(entries);
    StoredNamesAreRead(g, input, ThemeTable.FOLDER_ORDER);
    FirstSeenOnce(entries);
    PlacedOthers(names, first, (set f | f in first), first);
  }

  // -- no entry is lost -------------------------------------------------------------------------

  /** The items of the groups, one group after the other. */
  function AllItems(entries: seq<Entry>, order: seq<string>): seq<Entry> {
    if order == [] then []
    else AllItems(entries, order[..|order| - 1]) + Items(entries, order[|order| - 1])
  }

  lemma SnocCount(before: seq<Entry>, last: seq<Entry>, e: Entry)
    ensures multiset(before + last)[e] == multiset(before)[e] + multiset(last)[e]
  {
  }

  lemma LooseCountStep(before: seq<Entry>, last: Entry, e: Entry)
    requires multiset(Loose(before))[e] == if e.folder.None? then multiset(before)[e] else 0
    ensures multiset(Loose(before + [last]))[e] == if e.folder.None? then multiset(before + [last])[e] else 0
  {
    LooseSnoc(before, last);
    SnocCount(before, [last], e);
    SnocCount(Loose(before), if last.folder.None? then [last] else [], e);
  }

  lemma {:induction false} LooseCount(entries: seq<Entry>, e: Entry)
    ensures multiset(Loose(entries))[e] == if e.folder.None? then multiset(entries)[e] else 0
  {
    if entries != [] {
      var n := |entries| - 1;
      LooseCount(entries[..n], e);
      LooseCountStep(entries[..n], entries[n], e);
      assert entries == entries[..n] + [entries[n]];
    }
  }

  lemma ItemsSnoc(before: seq<Entry>, last: Entry, f: string)
    ensures Items(before + [last], f) == Items(before, f) + (if last.folder == Some(f) then [last] else [])
  {
    assert (before + [last])[..|before|] == before;
  }

  lemma ItemsCountStep(before: seq<Entry>, last: Entry, f: string, e: Entry)
    requires multiset(Items(before, f))[e] == if e.folder == Some(f) then multiset(before)[e] else 0
    ensures multiset(Items(before + [last], f))[e] == if e.folder == Some(f) then multiset(before + [last])[e] else 0
  {
    ItemsSnoc(before, last, f);
    SnocCount(before, [last], e);
    SnocCount(Items(before, f), if last.folder == Some(f) then [last] else [], e);
  }

  lemma {:induction false} ItemsCount(entries: seq<Entry>, f: string, e: Entry)
    ensures multiset(Items(entries, f))[e] == if e.folder == Some(f) then multiset(entries)[e] else 0
  {
    if entries != [] {
      var n := |entries| - 1;
      ItemsCount(entries[..n], f, e);
      ItemsCountStep(entries[..n], entries[n], f, e);
      assert entries == entries[..n] + [entries[n]];
    }
  }

  lemma AllItemsSnoc(entries: seq<Entry>, before: seq<string>, last: string)
    ensures AllItems(entries, before + [last]) == AllItems(entries, before) + Items(entries, last)
  {
    assert (before + [last])[..|before|] == before;
  }

  lemma AllItemsCountStep(entries: seq<Entry>, before: seq<string>, last: string, e: Entry)
    requires last !in before
    requires multiset(AllItems(entries, before))[e] == if e.folder.Some? && e.folder.value in before then multiset(entries)[e] else 0
    ensures multiset(AllItems(entries, before + [last]))[e]
            == if e.folder.Some? && e.folder.value in before + [last] then multiset(entries)[e] else 0
  {
    AllItemsSnoc(entries, before, last);
    ItemsCount(entries, last, e);
    SnocCount(AllItems(entries, before), Items(entries, last), e);
  }

  lemma {:induction false} AllItemsCount(entries: seq<Entry>, order: seq<string>, e: Entry)
    requires NoneTwice(order)
    ensures multiset(AllItems(entries, order))[e]
            == if e.folder.Some? && e.folder.value in order then multiset(entries)[e] else 0
  {
    if order != [] {
      var before, last := order[..|order| - 1], order[|order| - 1];
      assert last !in before by {
        forall k | 0 <= k < |before| ensures before[k] != last { assert before[k] == order[k]; }
      }
      AllItemsCount(entries, before, e);
      AllItemsCountStep(entries, before, last, e);
      assert order == before + [last];
    }
  }

  /** The loose entries followed by the groups are a permutation of all entries. */
  lemma EntriesConserved(layout: ProfileLayout, entries: seq<Entry>)
    ensures multiset(Loose(entries) + AllItems(entries, FolderOrder(layout, entries))) == multiset(entries)
  {
    var order := FolderOrder(layout, entries);
    forall i, j | 0 <= i < j < |order| ensures order[i] != order[j] { FoldersInOrder(layout, entries, i, j); }
    forall e: Entry
      ensures multiset(Loose(entries))[e] + multiset(AllItems(entries, order))[e] == multiset(entries)[e]
    {
      LooseCount(entries, e);
      AllItemsCount(entries, order, e);
      if e.folder.Some? {
        FoldersComplete(layout, entries, e.folder.value);
        if e in entries {
          var k :| 0 <= k < |entries| && entries[k] == e;
        }
      }
    }
  }

  /** Item `k` stands at `at[k]`, in increasing order. */
  ghost predicate StandAt(entries: seq<Entry>, items: seq<Entry>, at: seq<nat>) {
    && |at| == |items|
    && (forall k :: 0 <= k < |at| ==> at[k] < |entries| && entries[at[k]] == items[k])
    && forall k, l :: 0 <= k < l < |at| ==> at[k] < at[l]
  }

  ghost predicate ListsAll(entries: seq<Entry>, f: string, at: seq<nat>) {
    forall i :: 0 <= i < |entries| && entries[i].folder == Some(f) ==> i in at
  }

  lemma StandSnoc(before: seq<Entry>, items: seq<Entry>, at: seq<nat>, e: Entry)
    requires StandAt(before, items, at)
    ensures StandAt(before + [e], items, at) && StandAt(before + [e], items + [e], at + [|before|])
  {
  }

  lemma ListsSnoc(before: seq<Entry>, f: string, at: seq<nat>, e: Entry)
    requires ListsAll(before, f, at)
    ensures ListsAll(before + [e], f, if e.folder == Some(f) then at + [|before|] else at)
  {
  }

  /** Within a folder entries keep their order: item `k` of the group stands at `at[k]` among
      all entries, and no entry of the folder is missing. */
  lemma {:induction false} ItemsStable(entries: seq<Entry>, f: string) returns (at: seq<nat>)
    ensures StandAt(entries, Items(entries, f), at) && ListsAll(entries, f, at)
  {
    if entries == [] {
      at := [];
    } else {
      var before, e := entries[..|entries| - 1], entries[|entries| - 1];
      at := ItemsStable(before, f);
      assert entries == before + [e];
      StandSnoc(before, Items(before, f), at, e);
      ListsSnoc(before, f, at, e);
      if e.folder == Some(f) { at := at + [|before|]; }
    }
  }

  /** The loose entries keep their order as well, and are all those without a folder. */
  lemma {:induction false} LooseStable(entries: seq<Entry>) returns (at: seq<nat>)
    ensures StandAt(entries, Loose(entries), at)
    ensures forall i :: 0 <= i < |entries| ==> (i in at <==> entries[i].folder.None?)
  {
    if entries == [] {
      at := [];
    } else {
      var before, e := entries[..|entries| - 1], entries[|entries| - 1];
      at := LooseStable(before);
      assert entries == before + [e];
      StandSnoc(before, Loose(before), at, e);
      if e.folder.None? { at := at + [|before|]; }
    }
  }
}
