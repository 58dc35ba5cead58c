/** Maintenance of the memory tables: expiry, decay, merging duplicates and capping. */
module MemoryMaintenance {
  import opened Options
  import opened IdLists
  import opened Reals

  // ---- Semantic memories ----

  datatype Row = Row(scope: string, content: string, importance: real, accessed: string, updated: string)

  type Table = map<string, Row>

  predicate SamePair(a: Row, b: Row) {
    a.content == b.content && a.scope == b.scope
  }

  /** One row of the grouping query: the least id of a duplicated pair, and all ids as joined text. */
  datatype Group = Group(keep: string, joined: string)

  /** The ids a group's pass deletes. */
  function Dropped(group: Group): seq<string> {
    Without(ReadIds(group.joined), group.keep)
  }

  function Without(ids: seq<string>, id: string): (rest: seq<string>)
    ensures forall x :: x in rest <==> x in ids && x != id
  {
    if ids == [] then []
    else
      assert ids == [ids[0]] + ids[1..];
      (if ids[0] == id then [] else [ids[0]]) + Without(ids[1..], id)
  }

  ghost function Deleted(groups: seq<Group>): set<string> {
    set g, id | g in groups && id in Dropped(g) :: id
  }

  /** The rows a merge is meant to keep: of every (content, scope) pair, the one with the least id. */
  predicate Leading(table: Table, id: string)
    requires id in table
  {
    forall other :: other in table && SamePair(table[other], table[id]) ==> !Less(other, id)
  }

  ghost function Merged(table: Table): Table {
    map id | id in table && Leading(table, id) :: table[id]
  }

  ghost predicate Distinct(ids: seq<string>) {
    forall i, j :: 0 <= i < j < |ids| ==> ids[i] != ids[j]
  }

  /** `ids` are exactly the ids of the rows that share one pair, and there are several. */
  ghost predicate IsGroup(table: Table, group: Group, ids: seq<string>) {
    && |ids| >= 2 && Distinct(ids) && group.joined == JoinIds(ids) && group.keep in ids
    && (forall id :: id in ids ==> id in table)
    && Leading(table, group.keep)
    && (forall id :: id in table ==> (id in ids <==> SamePair(table[id], table[group.keep])))
  }

  /** What the grouping query returns: one group for every duplicated pair, with its ids. */
  ghost predicate IsGrouping(table: Table, groups: seq<Group>, ids: seq<seq<string>>) {
    && |ids| == |groups|
    && (forall g :: 0 <= g < |groups| ==> IsGroup(table, groups[g], ids[g]))
    && (forall a, b :: a in table && b in table && a != b && SamePair(table[a], table[b]) ==>
          exists g :: 0 <= g < |groups| && a in ids[g])
  }

  predicate AtLeastAsGood(a: Row, b: Row) {
    || a.importance > b.importance
    || (a.importance == b.importance
        && (Less(b.accessed, a.accessed)
            || (a.accessed == b.accessed && !Less(a.updated, b.updated))))
  }

  /** What the ordering query returns: every id once, better rows first. */
  ghost predicate IsRanking(table: Table, ranking: seq<string>) {
    && Distinct(ranking)
    && (forall id :: id in ranking <==> id in table)
    && (forall i, j :: 0 <= i < j < |ranking| ==>
          ranking[i] in table && ranking[j] in table && AtLeastAsGood(table[ranking[i]], table[ranking[j]]))
  }

  function IdsOf(ids: seq<string>): set<string> {
    set id | id in ids
  }

  function Head(ranking: seq<string>, n: nat): seq<string> {
    if |ranking| > n then ranking[..n] else ranking
  }

  function Stale(ranking: seq<string>, maxItems: nat): seq<string> {
    if |ranking| > maxItems then ranking[maxItems..] else []
  }

  function Capped(table: Table, ranking: seq<string>, maxItems: nat): Table {
    table - IdsOf(Stale(ranking, maxItems))
  }

  class VectorMemoryStore {
    var table: Table

    constructor ()
      ensures table == map[]
    {
      table := map[];
    }

    method AddExperience(id: string, scope: string, content: string, importance: real, at: string)
      modifies this
      ensures table == Upserted(old(table), id, Row(scope, content, importance, at, at))
      ensures table.Keys == old(table).Keys + {id}
      ensures table[id] == Row(scope, content, importance, if id in old(table) then old(table)[id].accessed else at, at)
      ensures forall other :: other in old(table) && other != id ==> table[other] == old(table)[other]
    {
      var row := Row(scope, content, importance, at, at);
      if id in table {
        row := row.(accessed := table[id].accessed);
      }
      table := table[id := row];
    }

    method DeleteAll(ids: seq<string>)
      modifies this
      ensures table == old(table) - IdsOf(ids)
    {
      for i := 0 to |ids|
        invariant table == old(table) - IdsOf(ids[..i])
      {
        assert ids[..i + 1] == ids[..i] + [ids[i]];
        assert IdsOf(ids[..i + 1]) == IdsOf(ids[..i]) + {ids[i]};
        table := table - {ids[i]};
      }
      assert ids[..|ids|] == ids;
    }

    method MergeDuplicates(groups: seq<Group>)
      modifies this
      ensures table == old(table) - Deleted(groups)
    {
      for i := 0 to |groups|
        invariant table == old(table) - Deleted(groups[..i])
      {
        assert groups[..i + 1] == groups[..i] + [groups[i]];
        var dropIds := Dropped(groups[i]);
        assert Deleted(groups[..i + 1]) == Deleted(groups[..i]) + IdsOf(dropIds);
        if dropIds != [] {
          DeleteAll(dropIds);
        }
      }
      assert groups[..|groups|] == groups;
    }

    method CapCollectionSize(ranking: seq<string>, maxItems: nat) returns (trimmed: nat)
      requires IsRanking(table, ranking)
      modifies this
      ensures table == Capped(old(table), ranking, maxItems)
      ensures trimmed == if |ranking| > maxItems then |ranking| - maxItems else 0
    {
      var stale := Stale(ranking, maxItems);
      if stale != [] {
        DeleteAll(stale);
      }
      trimmed := |stale|;
    }
  }

  // ---- What merging does ----

  lemma {:induction false} PairHasALeader(table: Table, id: string) returns (leader: string)
    requires id in table
    ensures leader in table && SamePair(table[leader], table[id]) && Leading(table, leader)
  {
    var same := set other | other in table && SamePair(table[other], table[id]);
    assert id in same;
    leader := LeastOf(same);
  }

  /** Merging keeps every (content, scope) pair, once: some kept row carries it, and only one. */
  lemma MergeKeepsEachPairOnce(table: Table, id: string)
    requires id in table
    ensures exists kept :: kept in Merged(table) && SamePair(Merged(table)[kept], table[id])
    ensures forall a, b :: a in Merged(table) && b in Merged(table) && SamePair(Merged(table)[a], Merged(table)[b])
              ==> a == b
  {
    var leader := PairHasALeader(table, id);
    assert leader in Merged(table);
    forall a, b | a in Merged(table) && b in Merged(table) && SamePair(Merged(table)[a], Merged(table)[b])
      ensures a == b
    {
      LessIsTotal(a, b);
    }
  }

  /** Another row carries the same pair. */
  ghost predicate Duplicated(table: Table, id: string)
    requires id in table
  {
    exists other :: other in table && other != id && SamePair(table[other], table[id])
  }

  /** Some duplicated row's id has this one among its comma pieces, and this is not the row its group keeps. */
  ghost predicate Hit(table: Table, id: string)
    requires id in table
  {
    exists a :: a in table && Duplicated(table, a) && id in ReadIds(a)
                && !(Leading(table, id) && SamePair(table[id], table[a]))
  }

  lemma OneLeaderPerPair(table: Table, a: string, b: string)
    requires a in table && b in table && Leading(table, a) && Leading(table, b) && SamePair(table[a], table[b])
    ensures a == b
  {
    LessIsTotal(a, b);
  }

  lemma GroupMembersAreDuplicated(table: Table, group: Group, ids: seq<string>, a: string)
    requires IsGroup(table, group, ids) && a in ids
    ensures a in table && Duplicated(table, a) && SamePair(table[a], table[group.keep])
  {
    var other := if ids[0] == a then ids[1] else ids[0];
    assert other in ids && other != a;
  }

  lemma DeletedMeansHit(table: Table, group: Group, ids: seq<string>, id: string)
    requires IsGroup(table, group, ids) && id in table && id in Dropped(group)
    ensures Hit(table, id)
  {
    ReadOfJoin(ids);
    ReadEachHas(ids, id);
    var a :| a in ids && id in ReadIds(a);
    GroupMembersAreDuplicated(table, group, ids, a);
    if Leading(table, id) && SamePair(table[id], table[a]) {
      OneLeaderPerPair(table, id, group.keep);
    }
  }

  lemma HitMeansDropped(table: Table, group: Group, ids: seq<string>, a: string, id: string)
    requires IsGroup(table, group, ids) && id in table && a in ids && id in ReadIds(a)
    requires !(Leading(table, id) && SamePair(table[id], table[a]))
    ensures id in Dropped(group)
  {
    ReadOfJoin(ids);
    ReadEachHas(ids, id);
    GroupMembersAreDuplicated(table, group, ids, a);
  }

  /** What a pass deletes, row by row, whatever the ids are. */
  lemma DeletedExactly(table: Table, groups: seq<Group>, ids: seq<seq<string>>, id: string)
    requires IsGrouping(table, groups, ids) && id in table
    ensures id in Deleted(groups) <==> Hit(table, id)
  {
    if id in Deleted(groups) {
      var group :| group in groups && id in Dropped(group);
      var g :| 0 <= g < |groups| && groups[g] == group;
      DeletedMeansHit(table, group, ids[g], id);
    }
    if Hit(table, id) {
      var a :| a in table && Duplicated(table, a) && id in ReadIds(a)
               && !(Leading(table, id) && SamePair(table[id], table[a]));
      var g := GroupOf(table, groups, ids, a);
      HitMeansDropped(table, groups[g], ids[g], a, id);
    }
  }

  lemma GroupOf(table: Table, groups: seq<Group>, ids: seq<seq<string>>, a: string) returns (g: nat)
    requires IsGrouping(table, groups, ids) && a in table && Duplicated(table, a)
    ensures g < |groups| && g < |ids| && a in ids[g] && IsGroup(table, groups[g], ids[g])
  {
    var other :| other in table && other != a && SamePair(table[other], table[a]);
    g :| 0 <= g < |groups| && a in ids[g];
  }

  /** No row but a leader has an unclean id, and no leader's id is a comma piece of a duplicated row
      of another pair. */
  ghost predicate Mergeable(table: Table) {
    && (forall id :: id in table && !Leading(table, id) ==> Clean(id))
    && (forall a, id :: a in table && id in table && Duplicated(table, a) && Leading(table, id) && id in ReadIds(a)
          ==> SamePair(table[id], table[a]))
  }

  lemma NonLeadersAreHit(table: Table, id: string)
    requires id in table && !Leading(table, id)
    ensures Hit(table, id) <==> Clean(id)
  {
    var other :| other in table && SamePair(table[other], table[id]) && Less(other, id);
    LessIsTotal(id, id);
    assert Duplicated(table, id);
    CleanIdsReadBack(id);
    if Hit(table, id) {
      var a :| a in table && Duplicated(table, a) && id in ReadIds(a);
      UncleanIsNeverRead(a, id);
    }
  }

  /** The pass leaves exactly the rows it is meant to keep if and only if the table is mergeable. */
  lemma MergeIsExactIff(table: Table, groups: seq<Group>, ids: seq<seq<string>>)
    requires IsGrouping(table, groups, ids)
    ensures table - Deleted(groups) == Merged(table) <==> Mergeable(table)
  {
    forall id | id in table ensures id in Deleted(groups) <==> Hit(table, id) {
      DeletedExactly(table, groups, ids, id);
    }
    forall id | id in table && !Leading(table, id) ensures Hit(table, id) <==> Clean(id) {
      NonLeadersAreHit(table, id);
    }
    if table - Deleted(groups) == Merged(table) {
      forall id | id in table ensures Hit(table, id) <==> !Leading(table, id) {
        assert id in table - Deleted(groups) <==> id in Merged(table);
      }
    }
    if Mergeable(table) {
      forall id | id in table ensures id in Deleted(groups) <==> !Leading(table, id) {
      }
    }
  }

  lemma CleanTablesAreMergeable(table: Table)
    requires forall id :: id in table ==> Clean(id)
    ensures Mergeable(table)
  {
    forall a, id | a in table && id in table && id in ReadIds(a) ensures id == a {
      CleanIdsReadBack(a);
    }
  }

  /** A duplicate whose id contains a comma (or is empty) survives the pass, whatever the groups. */
  lemma UncleanDuplicatesSurvive(table: Table, groups: seq<Group>, id: string)
    requires id in table && !Clean(id)
    ensures id in table - Deleted(groups)
  {
    if id in Deleted(groups) {
      var group :| group in groups && id in Dropped(group);
      UncleanIsNeverRead(group.joined, id);
      assert false;
    }
  }

  lemma SharersAreDuplicated(table: Table, a: string, id: string)
    requires a in table && id in table && a != id
    ensures SamePair(table[a], table[id]) ==> Duplicated(table, id)
  {
  }

  /** Worse, the only row of a pair is deleted, and the pair lost, when its id is a comma piece of a
      duplicated row. */
  lemma PairIsLost(table: Table, groups: seq<Group>, ids: seq<seq<string>>, a: string, id: string)
    requires IsGrouping(table, groups, ids) && a in table && id in table
    requires Duplicated(table, a) && !Duplicated(table, id) && id in ReadIds(a) && id != a
    ensures forall kept :: kept in table - Deleted(groups) ==> !SamePair(table[kept], table[id])
  {
    SharersAreDuplicated(table, a, id);
    assert Hit(table, id);
    DeletedExactly(table, groups, ids, id);
    forall kept | kept in table - Deleted(groups) ensures !SamePair(table[kept], table[id]) {
      assert kept != id;
    }
  }

  /** Three rows, the first two of one pair, the third alone and a comma piece of the first: the one
      group there is loses the third's pair. */
  lemma ThirdPairIsLost(table: Table, x: string, y: string, z: string)
    returns (groups: seq<Group>, ids: seq<seq<string>>)
    requires table.Keys == {x, y, z} && x != y && z != x && z != y && Less(x, y) && z in ReadIds(x)
    requires SamePair(table[x], table[y]) && !SamePair(table[x], table[z])
    ensures IsGrouping(table, groups, ids)
    ensures forall kept :: kept in table - Deleted(groups) ==> !SamePair(table[kept], table[z])
  {
    groups, ids := [Group(x, JoinIds([x, y]))], [[x, y]];
    LessIsTotal(x, y);
    LessIsTotal(x, x);
    assert Leading(table, x) && IsGroup(table, groups[0], [x, y]);
    assert y in table && Duplicated(table, x);
    PairIsLost(table, groups, ids, x, z);
  }

  /** For instance "a,b" and "c" with one pair, and "a" alone with another. */
  lemma LostPairExample(p: Row, q: Row) returns (table: Table, groups: seq<Group>, ids: seq<seq<string>>)
    requires !SamePair(p, q)
    ensures table == map["a,b" := p, "c" := p, "a" := q] && IsGrouping(table, groups, ids)
    ensures forall kept :: kept in table - Deleted(groups) ==> !SamePair(table[kept], q)
  {
    table := map["a,b" := p, "c" := p, "a" := q];
    assert |"a,b"| == 3 && |"c"| == 1 && "a"[0] != "c"[0];
    assert Less("a,b", "c");
    PiecesOfAB();
    groups, ids := ThirdPairIsLost(table, "a,b", "c", "a");
  }

  lemma PiecesOfAB()
    ensures "a" in ReadIds("a,b")
  {
    assert "a" + "," + "b" == "a,b";
    SplitAtComma("", "a", "b");
    SplitWord("", "a");
    assert "" + "a" == "a";
    NonEmptyOfConcat(["a"], SplitFrom("", "b"));
    assert NonEmpty(["a"]) == ["a"] by { assert ["a"][1..] == []; }
  }

  // ---- The tables the program builds ----

  predicate HexDigit(c: char) { '0' <= c <= '9' || 'a' <= c <= 'f' }

  /** The writer's id of an experience: a prefix and sixteen digits of the digest of its content. */
  function ExperienceId(content: string, digest: string -> string): string {
    var digits := digest(content);
    "exp_" + (if |digits| > 16 then digits[..16] else digits)
  }

  ghost predicate HexDigest(digest: string -> string) {
    forall content, c :: c in digest(content) ==> HexDigit(c)
  }

  /** Every row sits under the writer's id of its own content. */
  ghost predicate Written(table: Table, digest: string -> string) {
    forall id :: id in table ==> id == ExperienceId(table[id].content, digest)
  }

  /** What the program does to the table between two looks at it: it stores an experience, notes an
      access, or deletes rows, whichever they are. */
  datatype Change =
    | Add(content: string, scope: string, importance: real, at: string)
    | Touch(id: string, at: string)
    | Delete(ids: set<string>)

  /** An upsert keeps the time of the last access. */
  function Upserted(table: Table, id: string, row: Row): Table {
    table[id := if id in table then row.(accessed := table[id].accessed) else row]
  }

  function Changed(table: Table, change: Change, digest: string -> string): Table {
    match change
    case Add(content, scope, importance, at) =>
      Upserted(table, ExperienceId(content, digest), Row(scope, content, importance, at, at))
    case Touch(id, at) => if id in table then table[id := table[id].(accessed := at)] else table
    case Delete(ids) => table - ids
  }

  function ChangedAll(table: Table, changes: seq<Change>, digest: string -> string): Table {
    if changes == [] then table
    else Changed(ChangedAll(table, changes[..|changes| - 1], digest), changes[|changes| - 1], digest)
  }

  /** A noted access dates that row's last access and changes nothing else; a deletion takes exactly its rows. */
  lemma AccessesAndDeletions(table: Table, id: string, at: string, ids: set<string>, digest: string -> string)
    ensures var touched, kept := Changed(table, Touch(id, at), digest), Changed(table, Delete(ids), digest);
            && touched.Keys == table.Keys && kept.Keys == table.Keys - ids
            && (id in table ==> touched[id].accessed == at)
            && (forall x :: x in kept ==> kept[x] == table[x])
            && forall x :: x in table ==>
                 && touched[x].scope == table[x].scope && touched[x].content == table[x].content
                 && touched[x].importance == table[x].importance && touched[x].updated == table[x].updated
                 && (x != id ==> touched[x].accessed == table[x].accessed)
  {
  }

  /** Two experiences share an id exactly when their digests agree in the first sixteen digits. */
  lemma IdsAgreeExactly(a: string, b: string, digest: string -> string)
    requires |digest(a)| >= 16 && |digest(b)| >= 16
    ensures ExperienceId(a, digest) == ExperienceId(b, digest) <==> digest(a)[..16] == digest(b)[..16]
    ensures |ExperienceId(a, digest)| == 20 && "exp_" <= ExperienceId(a, digest)
  {
    IdDigits(a, digest);
    IdDigits(b, digest);
  }

  lemma IdDigits(content: string, digest: string -> string)
    requires |digest(content)| >= 16
    ensures |ExperienceId(content, digest)| == 20 && ExperienceId(content, digest)[4..] == digest(content)[..16]
    ensures ExperienceId(content, digest)[..4] == "exp_"
  {
    var digits := digest(content)[..16];
    assert digest(content) == digits || |digest(content)| > 16;
    assert ExperienceId(content, digest) == "exp_" + digits;
  }

  lemma {:induction false} ChangesKeepWritten(table: Table, changes: seq<Change>, digest: string -> string)
    requires Written(table, digest)
    ensures Written(ChangedAll(table, changes, digest), digest)
  {
    if changes != [] {
      ChangesKeepWritten(table, changes[..|changes| - 1], digest);
    }
  }

  lemma WrittenIdsAreClean(content: string, digest: string -> string)
    requires HexDigest(digest)
    ensures Clean(ExperienceId(content, digest))
  {
    var digits := digest(content);
    var kept := if |digits| > 16 then digits[..16] else digits;
    forall c | c in kept ensures HexDigit(c) {
      assert c in digest(content);
    }
    assert ',' !in kept && ',' !in "exp_";
  }

  /** In every table the program builds all ids are clean and no pair is duplicated, so a pass has
      nothing to merge and changes nothing. */
  lemma NothingToMergeInBuiltTables(changes: seq<Change>, digest: string -> string,
                                    groups: seq<Group>, ids: seq<seq<string>>)
    requires HexDigest(digest) && IsGrouping(ChangedAll(map[], changes, digest), groups, ids)
    ensures var table := ChangedAll(map[], changes, digest);
            && (forall id :: id in table ==> Clean(id) && !Duplicated(table, id))
            && groups == [] && table - Deleted(groups) == table == Merged(table)
  {
    var table := ChangedAll(map[], changes, digest);
    ChangesKeepWritten(map[], changes, digest);
    forall id | id in table ensures Clean(id) && !Duplicated(table, id) {
      WrittenIdsAreClean(table[id].content, digest);
    }
    if groups != [] {
      GroupMembersAreDuplicated(table, groups[0], ids[0], groups[0].keep);
      assert false;
    }
    forall id | id in table ensures Leading(table, id) {
      LessIsTotal(id, id);
    }
  }

  // ---- What capping does ----

  lemma {:induction false} DistinctSize(ids: seq<string>)
    requires Distinct(ids)
    ensures |IdsOf(ids)| == |ids|
  {
    if ids != [] {
      var front, last := ids[..|ids| - 1], ids[|ids| - 1];
      DistinctSize(front);
      assert ids == front + [last];
      assert IdsOf(ids) == IdsOf(front) + {last};
    }
  }

  lemma HeadAndStale(ranking: seq<string>, maxItems: nat)
    requires Distinct(ranking)
    ensures ranking == Head(ranking, maxItems) + Stale(ranking, maxItems)
    ensures IdsOf(ranking) - IdsOf(Stale(ranking, maxItems)) == IdsOf(Head(ranking, maxItems))
    ensures Distinct(Head(ranking, maxItems))
  {
    var head, stale := Head(ranking, maxItems), Stale(ranking, maxItems);
    forall i, j | 0 <= i < |head| && 0 <= j < |stale| ensures head[i] != stale[j] {
      assert head[i] == ranking[i] && stale[j] == ranking[|head| + j];
    }
  }

  lemma HeadRanksFirst(table: Table, ranking: seq<string>, maxItems: nat, a: string, b: string)
    requires IsRanking(table, ranking) && a in Head(ranking, maxItems) && b in Stale(ranking, maxItems)
    ensures a in table && b in table && AtLeastAsGood(table[a], table[b])
  {
    var head, stale := Head(ranking, maxItems), Stale(ranking, maxItems);
    var i :| 0 <= i < |head| && head[i] == a;
    var j :| 0 <= j < |stale| && stale[j] == b;
    assert ranking[i] == a && ranking[maxItems + j] == b;
  }

  lemma CappedSize(table: Table, capped: Table, ranking: seq<string>, maxItems: nat)
    requires Distinct(ranking) && Distinct(Head(ranking, maxItems))
    requires table.Keys == IdsOf(ranking) && capped.Keys == IdsOf(Head(ranking, maxItems))
    ensures |capped| == if |table| < maxItems then |table| else maxItems
  {
    DistinctSize(ranking);
    DistinctSize(Head(ranking, maxItems));
    assert |table| == |table.Keys| && |capped| == |capped.Keys|;
  }

  /** Capping keeps min(max, count) rows, and no kept row ranks below a dropped one. */
  lemma CapKeepsTheBest(table: Table, ranking: seq<string>, maxItems: nat)
    requires IsRanking(table, ranking)
    ensures |Capped(table, ranking, maxItems)| == if |table| < maxItems then |table| else maxItems
    ensures forall a, b :: a in Capped(table, ranking, maxItems) && b in table && b !in Capped(table, ranking, maxItems)
              ==> AtLeastAsGood(table[a], table[b])
  {
    HeadAndStale(ranking, maxItems);
    var capped := Capped(table, ranking, maxItems);
    assert table.Keys == IdsOf(ranking) && capped.Keys == IdsOf(Head(ranking, maxItems));
    CappedSize(table, capped, ranking, maxItems);
    forall a, b | a in capped && b in table && b !in capped ensures AtLeastAsGood(table[a], table[b]) {
      HeadRanksFirst(table, ranking, maxItems, a, b);
    }
  }

  /** What that ranking means: nothing dropped is more important than anything kept; of equal importance,
      nothing dropped was accessed later; and of those accessed at the same time, none was updated later. */
  lemma CapKeepsTheMostImportant(table: Table, ranking: seq<string>, maxItems: nat, kept: string, dropped: string)
    requires IsRanking(table, ranking)
    requires kept in Capped(table, ranking, maxItems)
    requires dropped in table && dropped !in Capped(table, ranking, maxItems)
    ensures kept in table
    ensures table[dropped].importance <= table[kept].importance
    ensures table[dropped].importance == table[kept].importance ==> !Less(table[kept].accessed, table[dropped].accessed)
    ensures table[dropped].importance == table[kept].importance && table[dropped].accessed == table[kept].accessed ==>
              !Less(table[kept].updated, table[dropped].updated)
  {
    CapKeepsTheBest(table, ranking, maxItems);
    LessIsTotal(table[kept].accessed, table[dropped].accessed);
  }

  // ---- Structured memories ----

  datatype Structured = Structured(importance: real, expiresAt: Option<string>)

  const FLOOR := 0.05

  function Decayed(importance: real, factor: real): real {
    if importance > FLOOR then Max(FLOOR, importance * factor) else importance
  }

  predicate Expired(row: Structured, now: string) {
    row.expiresAt.Some? && row.expiresAt.value != "" && Less(row.expiresAt.value, now)
  }

  /** A row without an expiry never expires; one with an expiry has expired once that lies in the past, not in
      that very moment, and stays so. */
  lemma ExpiryTable(row: Structured, now: string, later: string)
    ensures row.expiresAt == None || row.expiresAt == Some("") ==> !Expired(row, now)
    ensures row.expiresAt == Some(now) ==> !Expired(row, now)
    ensures row.expiresAt == Some(later) && later != "" && Less(later, now) ==> Expired(row, now)
    ensures Expired(row, now) && Less(now, later) ==> Expired(row, later)
  {
    LessIsTotal(now, now);
    if Expired(row, now) && Less(now, later) {
      LessIsTransitive(row.expiresAt.value, now, later);
    }
  }

  class StructuredMemoryStore {
    var structured: map<string, Structured>
    var projects: map<string, real>

    constructor ()
      ensures structured == map[] && projects == map[]
    {
      structured, projects := map[], map[];
    }

    method DeleteExpired(now: string) returns (deleted: nat)
      modifies this
      ensures projects == old(projects)
      ensures structured == map id | id in old(structured) && !Expired(old(structured)[id], now) :: old(structured)[id]
      ensures deleted == |set id | id in old(structured) && Expired(old(structured)[id], now)|
    {
      var expired := set id | id in structured && Expired(structured[id], now);
      structured := map id | id in structured && id !in expired :: structured[id];
      deleted := |expired|;
    }

    method DecayImportance(factor: real)
      modifies this
      ensures structured == map id | id in old(structured) ::
        old(structured)[id].(importance := Decayed(old(structured)[id].importance, factor))
      ensures projects == map id | id in old(projects) :: Decayed(old(projects)[id], factor)
    {
      structured := map id | id in structured ::
        structured[id].(importance := Decayed(structured[id].importance, factor));
      projects := map id | id in projects :: Decayed(projects[id], factor);
    }
  }

  function Power(factor: real, n: nat): real {
    if n == 0 then 1.0 else factor * Power(factor, n - 1)
  }

  function DecayedTimes(importance: real, factor: real, n: nat): real {
    if n == 0 then importance else Decayed(DecayedTimes(importance, factor, n - 1), factor)
  }

  lemma ScaleDown(x: real, factor: real) returns (product: real)
    requires x >= 0.0 && 0.0 <= factor <= 1.0
    ensures product == x * factor && 0.0 <= product <= x
  {
    product := x * factor;
    assert x * (1.0 - factor) >= 0.0;
  }

  lemma ScaleOrder(x: real, y: real, factor: real) returns (p: real, q: real)
    requires x <= y && factor >= 0.0
    ensures p == x * factor && q == y * factor && p <= q
  {
    p, q := x * factor, y * factor;
    assert (y - x) * factor >= 0.0;
  }

  lemma {:induction false} PowerRange(factor: real, n: nat)
    requires 0.0 <= factor <= 1.0
    ensures 0.0 <= Power(factor, n) <= 1.0
  {
    if n > 0 {
      PowerRange(factor, n - 1);
      var p := ScaleDown(Power(factor, n - 1), factor);
    }
  }

  /** What n passes are meant to leave of an importance above the floor. */
  function Faded(importance: real, power: real): real {
    Max(FLOOR, power * importance)
  }

  /** A pass over a floored value: floor and factor may be applied in either order. */
  lemma DecayFloored(floored: real, before: real, after: real, factor: real)
    requires floored == Max(FLOOR, before) && after == before * factor && before >= 0.0 && 0.0 <= factor <= 1.0
    ensures Decayed(floored, factor) == Max(FLOOR, after)
  {
    if before > FLOOR {
      DecayAbove(before, after, factor);
      assert floored == before;
    } else {
      var scaled := ScaleDown(before, factor);
      assert floored == FLOOR && scaled <= FLOOR;
    }
  }

  lemma DecayAbove(before: real, after: real, factor: real)
    requires before > FLOOR && after == before * factor
    ensures Decayed(before, factor) == Max(FLOOR, after)
  {
  }

  lemma Regroup(x: real, y: real, z: real) returns (before: real, after: real)
    ensures before == y * z && after == (x * y) * z == before * x
  {
    before, after := y * z, (x * y) * z;
  }

  lemma ProductNonNegative(x: real, y: real, product: real)
    requires x >= 0.0 && y >= 0.0 && product == x * y
    ensures product >= 0.0
  {
  }

  /** One more pass multiplies the power by the factor. */
  lemma DecayStep(importance: real, factor: real, power: real)
    requires importance > FLOOR && 0.0 <= factor <= 1.0 && power >= 0.0
    ensures Decayed(Faded(importance, power), factor) == Faded(importance, factor * power)
  {
    var before, after := Regroup(factor, power, importance);
    ProductNonNegative(power, importance, before);
    DecayFloored(Faded(importance, power), before, after, factor);
  }

  /** An importance at or below the floor is left alone by every pass. */
  lemma {:induction false} LowImportanceStays(importance: real, factor: real, n: nat)
    requires importance <= 0.05
    ensures DecayedTimes(importance, factor, n) == importance
  {
    if n > 0 {
      LowImportanceStays(importance, factor, n - 1);
    }
  }

  /** After n passes an importance above the floor is max(floor, factor^n * importance). */
  lemma {:induction false} DecayPasses(importance: real, factor: real, n: nat)
    requires importance > 0.05 && 0.0 <= factor <= 1.0
    ensures DecayedTimes(importance, factor, n) == Faded(importance, Power(factor, n))
    ensures Faded(importance, Power(factor, n)) >= 0.05
  {
    if n == 0 {
      assert 1.0 * importance == importance;
    } else {
      var power := Power(factor, n - 1);
      DecayPasses(importance, factor, n - 1);
      PowerRange(factor, n - 1);
      DecayStep(importance, factor, power);
      assert Power(factor, n) == factor * power;
    }
  }

  /** A decay pass never inverts the order of two rows, whether or not it touches them. */
  lemma DecayKeepsOrder(x: real, y: real, factor: real)
    requires x <= y && 0.0 <= factor <= 1.0
    ensures Decayed(x, factor) <= Decayed(y, factor)
  {
    var p, q := ScaleOrder(x, y, factor);
  }

  /** Nor do any number of passes. */
  lemma {:induction false} PassesKeepOrder(x: real, y: real, factor: real, n: nat)
    requires x <= y && 0.0 <= factor <= 1.0
    ensures DecayedTimes(x, factor, n) <= DecayedTimes(y, factor, n)
  {
    if n > 0 {
      PassesKeepOrder(x, y, factor, n - 1);
      DecayKeepsOrder(DecayedTimes(x, factor, n - 1), DecayedTimes(y, factor, n - 1), factor);
    }
  }

  // ---- The composed pass ----

  class MemoryPruner {
    const store: StructuredMemoryStore
    const vectors: VectorMemoryStore
    const maxItems: nat

    constructor (store: StructuredMemoryStore, vectors: VectorMemoryStore, maxItems: nat)
      ensures this.store == store && this.vectors == vectors && this.maxItems == maxItems
    {
      this.store, this.vectors, this.maxItems := store, vectors, maxItems;
    }

    /** `groups` and `ranking` are what the two queries return when they are run. */
    method Prune(now: string, factor: real, groups: seq<Group>, ranking: seq<string>)
      returns (expiredDeleted: nat, semanticTrimmed: nat)
      requires IsRanking(vectors.table - Deleted(groups), ranking)
      modifies store, vectors
      ensures vectors.table == Capped(old(vectors.table) - Deleted(groups), ranking, maxItems)
      ensures store.structured == map id | id in old(store.structured) && !Expired(old(store.structured)[id], now) ::
        old(store.structured)[id].(importance := Decayed(old(store.structured)[id].importance, factor))
      ensures store.projects == map id | id in old(store.projects) :: Decayed(old(store.projects)[id], factor)
      ensures expiredDeleted == |set id | id in old(store.structured) && Expired(old(store.structured)[id], now)|
      ensures semanticTrimmed == if |ranking| > maxItems then |ranking| - maxItems else 0
    {
      expiredDeleted := store.DeleteExpired(now);
      store.DecayImportance(factor);
      vectors.MergeDuplicates(groups);
      semanticTrimmed := vectors.CapCollectionSize(ranking, maxItems);
    }
  }

  /** One maintenance pass: at most `maxItems` rows remain and they are the best of what merging left;
      if the table is mergeable, that is the merged table, and every remaining pair is unique. */
  lemma MaintenanceMergesThenCaps(table: Table, groups: seq<Group>, ids: seq<seq<string>>, ranking: seq<string>,
                                  maxItems: nat)
    requires IsGrouping(table, groups, ids) && IsRanking(table - Deleted(groups), ranking)
    ensures var merged := table - Deleted(groups);
            var after := Capped(merged, ranking, maxItems);
            && |after| == (if |merged| < maxItems then |merged| else maxItems)
            && (forall a, b :: a in after && b in merged && b !in after ==> AtLeastAsGood(table[a], table[b]))
            && (Mergeable(table) ==> merged == Merged(table) && PairsAreUnique(after))
  {
    var merged := table - Deleted(groups);
    MergeIsExactIff(table, groups, ids);
    CapKeepsTheBest(merged, ranking, maxItems);
    var after := Capped(merged, ranking, maxItems);
    if Mergeable(table) {
      forall a, b | a in after && b in after && SamePair(after[a], after[b]) ensures a == b {
        MergeKeepsEachPairOnce(table, a);
      }
    }
  }

  ghost predicate PairsAreUnique(table: Table) {
    forall a, b :: a in table && b in table && SamePair(table[a], table[b]) ==> a == b
  }
}
