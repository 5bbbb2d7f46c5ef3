/** Villages: placing a new player's village on a free prairie in the border
    band of the world map (lib/game/village/assign-village.ts), and renaming
    it (lib/game/village/update-village-name.ts). */
module Villages {
  import opened Wrappers
  import MapGenerator

  /** A village row. `id` is its position in the table; `capacity` bounds its population. */
  datatype Village = Village(id: nat, ownerId: string, x: int, y: int, name: Option<string>, capacity: int)

  const MIN_BORDER_DISTANCE: int := 3
  const MAX_BORDER_DISTANCE: int := 10
  const MAX_COORD: int := 99

  predicate InBand(d: int)
  {
    MIN_BORDER_DISTANCE <= d <= MAX_BORDER_DISTANCE
  }

  /** `isInBorderZone`: between 3 and 10 cells from at least one of the four edges. */
  predicate IsInBorderZone(x: int, y: int)
  {
    InBand(x) || InBand(MAX_COORD - x) || InBand(y) || InBand(MAX_COORD - y)
  }

  /** The shape of the band: symmetric under both mirrors and the diagonal,
      empty in the interior square, containing every cell whose nearest edge is
      3 to 10 cells away, and also reaching cells on an edge when the other
      coordinate is in the band. */
  lemma BorderZoneShape(x: int, y: int)
    ensures IsInBorderZone(x, y) == IsInBorderZone(MAX_COORD - x, y) == IsInBorderZone(x, MAX_COORD - y)
            == IsInBorderZone(y, x)
    ensures 11 <= x <= 88 && 11 <= y <= 88 ==> !IsInBorderZone(x, y)
    ensures (0 <= x <= MAX_COORD && 0 <= y <= MAX_COORD &&
             InBand(Min(Min(x, MAX_COORD - x), Min(y, MAX_COORD - y)))) ==> IsInBorderZone(x, y)
    ensures IsInBorderZone(0, 5) && !IsInBorderZone(0, 0) && !IsInBorderZone(2, 50)
  {
  }

  function Min(a: int, b: int): int
  {
    if a <= b then a else b
  }

  /** `map.flat()`: the rows of the map, concatenated in order. */
  function Flatten(grid: seq<seq<MapGenerator.Cell>>): (cells: seq<MapGenerator.Cell>)
  {
    if grid == [] then [] else grid[0] + Flatten(grid[1..])
  }

  /** Where row `y` starts in the flattened map. */
  function RowStart(w: nat, y: nat): nat
  {
    if y == 0 then 0 else w + RowStart(w, y - 1)
  }

  lemma {:induction false} RowStartIsProduct(w: nat, y: nat)
    ensures RowStart(w, y) == w * y
  {
    if y > 0 {
      RowStartIsProduct(w, y - 1);
    }
  }

  /** Flattening a map of rows of width `w` is row-major order. */
  lemma {:induction false} FlattenIsRowMajor(grid: seq<seq<MapGenerator.Cell>>, w: nat, y: nat, x: nat)
    requires forall r :: 0 <= r < |grid| ==> |grid[r]| == w
    requires y < |grid| && x < w
    ensures RowStart(w, y) + x < |Flatten(grid)|
    ensures Flatten(grid)[RowStart(w, y) + x] == grid[y][x]
  {
    var rest := grid[1..];
    assert Flatten(grid) == grid[0] + Flatten(rest);
    if y > 0 {
      assert forall r :: 0 <= r < |rest| ==> |rest[r]| == w by {
        forall r | 0 <= r < |rest| ensures |rest[r]| == w {
          assert rest[r] == grid[r + 1];
        }
      }
      FlattenIsRowMajor(rest, w, y - 1, x);
      assert rest[y - 1] == grid[y];
    }
  }

  /** On the world map, the flattened index of cell (x, y) is 100 * y + x. */
  lemma WorldMapRowMajor(x: nat, y: nat)
    requires x < MapGenerator.MAP_SIZE && y < MapGenerator.MAP_SIZE
    ensures 100 * y + x < |Flatten(MapGenerator.WorldMap())|
    ensures Flatten(MapGenerator.WorldMap())[100 * y + x] == MapGenerator.CellAt(MapGenerator.WORLD_SEED, 0, x, y)
  {
    var m := MapGenerator.WorldMap();
    RowStartIsProduct(100, y);
    FlattenIsRowMajor(m, 100, y, x);
    assert m[y][x] == MapGenerator.CellAt(MapGenerator.WORLD_SEED, 0, x, y);
  }

  /** A cell where a new village may be placed, given the positions already taken. */
  predicate Free(c: MapGenerator.Cell, taken: set<(int, int)>)
  {
    c.biome == MapGenerator.Prairie && IsInBorderZone(c.x, c.y) && (c.x, c.y) !in taken
  }

  /** The prairie filter followed by `find`: the first free border prairie in the given order. */
  function FindFreePrairie(cells: seq<MapGenerator.Cell>, taken: set<(int, int)>): (r: Option<MapGenerator.Cell>)
    ensures r.None? <==> forall i :: 0 <= i < |cells| ==> !Free(cells[i], taken)
    ensures r.Some? ==> exists i :: 0 <= i < |cells| && cells[i] == r.value && Free(r.value, taken)
                                    && forall j :: 0 <= j < i ==> !Free(cells[j], taken)
  {
    if cells == [] then None
    else if Free(cells[0], taken) then Some(cells[0])
    else
      var r := FindFreePrairie(cells[1..], taken);
      assert forall i :: 1 <= i < |cells| ==> cells[i] == cells[1..][i - 1];
      r
  }

  /** The positions of all existing villages. */
  function Taken(rows: seq<Village>): set<(int, int)>
  {
    set v | v in rows :: (v.x, v.y)
  }

  /** Position of the village owned by `userId`, looking from index `i` on. */
  function OwnedFrom(rows: seq<Village>, userId: string, i: nat): (r: Option<nat>)
    requires i <= |rows|
    decreases |rows| - i
    ensures r.None? <==> forall k :: i <= k < |rows| ==> rows[k].ownerId != userId
    ensures r.Some? ==> i <= r.value < |rows| && rows[r.value].ownerId == userId
  {
    if i == |rows| then None
    else if rows[i].ownerId == userId then Some(i)
    else OwnedFrom(rows, userId, i + 1)
  }

  /** Position of the village named `name`, looking from index `i` on. */
  function NamedFrom(rows: seq<Village>, name: string, i: nat): (r: Option<nat>)
    requires i <= |rows|
    decreases |rows| - i
    ensures r.None? <==> forall k :: i <= k < |rows| ==> rows[k].name != Some(name)
    ensures r.Some? ==> i <= r.value < |rows| && rows[r.value].name == Some(name)
  {
    if i == |rows| then None
    else if rows[i].name == Some(name) then Some(i)
    else NamedFrom(rows, name, i + 1)
  }

  /** The characters `String.prototype.trim` removes: white space and line terminators. */
  predicate IsJsWhitespace(c: char)
  {
    var n := c as int;
    (0x09 <= n <= 0x0D) || n == 0x20 || n == 0xA0 || n == 0x1680 || (0x2000 <= n <= 0x200A)
    || n == 0x2028 || n == 0x2029 || n == 0x202F || n == 0x205F || n == 0x3000 || n == 0xFEFF
  }

  /** Number of white characters `s` starts with. */
  function LeadingWhite(s: string): (n: nat)
    ensures n <= |s|
  {
    if s != [] && IsJsWhitespace(s[0]) then 1 + LeadingWhite(s[1..]) else 0
  }

  /** Number of white characters `s` ends with. */
  function TrailingWhite(s: string): (n: nat)
    ensures n <= |s|
  {
    if s != [] && IsJsWhitespace(s[|s| - 1]) then 1 + TrailingWhite(s[..|s| - 1]) else 0
  }

  /** The leading run is white and is followed by a non-white character or the end. */
  lemma {:induction false} LeadingWhiteRun(s: string)
    ensures forall i :: 0 <= i < LeadingWhite(s) ==> IsJsWhitespace(s[i])
    ensures LeadingWhite(s) < |s| ==> !IsJsWhitespace(s[LeadingWhite(s)])
  {
    if s != [] && IsJsWhitespace(s[0]) {
      LeadingWhiteRun(s[1..]);
      forall i | 0 < i < LeadingWhite(s) ensures IsJsWhitespace(s[i]) {
        assert s[i] == s[1..][i - 1];
      }
    }
  }

  /** The trailing run is white and is preceded by a non-white character or the start. */
  lemma {:induction false} TrailingWhiteRun(s: string)
    ensures forall i :: |s| - TrailingWhite(s) <= i < |s| ==> IsJsWhitespace(s[i])
    ensures TrailingWhite(s) < |s| ==> !IsJsWhitespace(s[|s| - 1 - TrailingWhite(s)])
  {
    if s != [] && IsJsWhitespace(s[|s| - 1]) {
      TrailingWhiteRun(s[..|s| - 1]);
      forall i | |s| - TrailingWhite(s) <= i < |s| - 1 ensures IsJsWhitespace(s[i]) {
        assert s[i] == s[..|s| - 1][i];
      }
    }
  }

  function TrimStart(s: string): string
  {
    s[LeadingWhite(s)..]
  }

  function TrimEnd(s: string): string
  {
    s[..|s| - TrailingWhite(s)]
  }

  /** `String.prototype.trim`. */
  function Trim(s: string): string
  {
    TrimEnd(TrimStart(s))
  }

  lemma TrimIsSlice(s: string)
    ensures LeadingWhite(s) + |Trim(s)| <= |s|
    ensures Trim(s) == s[LeadingWhite(s)..LeadingWhite(s) + |Trim(s)|]
  {
    var p := LeadingWhite(s);
    var a := s[p..];
    var m := |a| - TrailingWhite(a);
    var t := a[..m];
    assert Trim(s) == t;
    forall i | 0 <= i < m ensures t[i] == s[p + i] {
    }
    assert t == s[p..p + m];
  }

  lemma TrimDropsWhiteTail(s: string)
    ensures forall i :: LeadingWhite(s) + |Trim(s)| <= i < |s| ==> IsJsWhitespace(s[i])
  {
    var p := LeadingWhite(s);
    var a := s[p..];
    var q := p + |a| - TrailingWhite(a);
    assert |Trim(s)| == |a| - TrailingWhite(a);
    TrailingWhiteRun(a);
    forall i | q <= i < |s| ensures IsJsWhitespace(s[i]) {
      assert s[i] == a[i - p];
    }
  }

  lemma TrimEndsNonWhite(s: string)
    ensures var t := Trim(s);
      t == [] || (!IsJsWhitespace(t[0]) && !IsJsWhitespace(t[|t| - 1]))
  {
    var p := LeadingWhite(s);
    var a := s[p..];
    var n := TrailingWhite(a);
    var t := a[..|a| - n];
    assert t == Trim(s);
    LeadingWhiteRun(s);
    TrailingWhiteRun(a);
    if t != [] {
      assert t[0] == a[0] == s[p];
      assert t[|t| - 1] == a[|a| - 1 - n];
    }
  }

  /** The trimmed string is `s[p..q]`, where everything before `p` and from `q` on
      is white, and it starts and ends with a non-white character. */
  lemma TrimSplits(s: string)
    ensures var t := Trim(s);
      var p := LeadingWhite(s);
      var q := p + |t|;
      && q <= |s| && t == s[p..q]
      && (forall i :: 0 <= i < p ==> IsJsWhitespace(s[i]))
      && (forall i :: q <= i < |s| ==> IsJsWhitespace(s[i]))
      && (t == [] || (!IsJsWhitespace(t[0]) && !IsJsWhitespace(t[|t| - 1])))
  {
    TrimIsSlice(s);
    LeadingWhiteRun(s);
    TrimDropsWhiteTail(s);
    TrimEndsNonWhite(s);
  }

  lemma TrimIdempotent(s: string)
    ensures Trim(Trim(s)) == Trim(s)
  {
    var t := Trim(s);
    TrimSplits(s);
    if t != [] {
      assert LeadingWhite(t) == 0;
      assert TrimStart(t) == t;
      assert TrailingWhite(t) == 0;
    }
  }

  /** Length as JavaScript counts it: UTF-16 code units. */
  function Utf16Length(s: string): (n: nat)
    ensures |s| <= n <= 2 * |s|
  {
    if s == [] then 0 else (if s[0] as int > 0xFFFF then 2 else 1) + Utf16Length(s[1..])
  }

  datatype NameError = NameTooShort | NameTooLong | NameTaken | UpdateFailed

  /** The length checks of `updateVillageName` on the trimmed name. */
  function CheckVillageName(name: string): (r: Result<string, NameError>)
    ensures r.Ok? <==> 3 <= Utf16Length(Trim(name)) <= 30
    ensures r.Ok? ==> r.value == Trim(name)
    ensures r == Err(NameTooShort) <==> Utf16Length(Trim(name)) < 3
    ensures r == Err(NameTooLong) <==> Utf16Length(Trim(name)) > 30
  {
    var t := Trim(name);
    if Utf16Length(t) < 3 then Err(NameTooShort)
    else if Utf16Length(t) > 30 then Err(NameTooLong)
    else Ok(t)
  }

  /** An accepted name is accepted again unchanged. */
  lemma CheckVillageNameStable(name: string)
    requires CheckVillageName(name).Ok?
    ensures CheckVillageName(CheckVillageName(name).value) == CheckVillageName(name)
  {
    TrimIdempotent(name);
  }

  datatype AssignVillageError = NoFreePrairie

  /** Ids are positions; owners, names and positions are unique (owners and
      names are unique columns, and placement never reuses a taken cell); every
      stored name passed the name checks. */
  ghost predicate ValidRows(rows: seq<Village>)
  {
    (forall i :: 0 <= i < |rows| ==> rows[i].id == i)
    && (forall i, j :: 0 <= i < j < |rows| ==> rows[i].ownerId != rows[j].ownerId)
    && (forall i, j :: 0 <= i < j < |rows| ==> (rows[i].x, rows[i].y) != (rows[j].x, rows[j].y))
    && (forall i, j :: 0 <= i < |rows| && 0 <= j < |rows| && i != j && rows[i].name.Some? ==> rows[i].name != rows[j].name)
    && (forall i :: 0 <= i < |rows| && rows[i].name.Some? ==> CheckVillageName(rows[i].name.value) == Ok(rows[i].name.value))
  }

  lemma AppendKeepsValid(rows: seq<Village>, v: Village)
    requires ValidRows(rows)
    requires v.id == |rows| && v.name.None? && OwnedFrom(rows, v.ownerId, 0).None?
    requires forall i :: 0 <= i < |rows| ==> (rows[i].x, rows[i].y) != (v.x, v.y)
    ensures ValidRows(rows + [v])
  {
    var rs := rows + [v];
    forall i, j | 0 <= i < j < |rs|
      ensures rs[i].ownerId != rs[j].ownerId && (rs[i].x, rs[i].y) != (rs[j].x, rs[j].y)
    {
      if j == |rows| {
        assert rs[i] == rows[i];
      } else {
        assert rs[i] == rows[i] && rs[j] == rows[j];
      }
    }
    forall i, j | 0 <= i < |rs| && 0 <= j < |rs| && i != j && rs[i].name.Some?
      ensures rs[i].name != rs[j].name
    {
      assert i < |rows|;
      assert rs[i] == rows[i];
      if j < |rows| {
        assert rs[j] == rows[j];
      }
    }
  }

  lemma RenameKeepsValid(rows: seq<Village>, k: nat, t: string)
    requires ValidRows(rows) && k < |rows|
    requires CheckVillageName(t) == Ok(t)
    requires forall i :: 0 <= i < |rows| && i != k ==> rows[i].name != Some(t)
    ensures ValidRows(rows[k := rows[k].(name := Some(t))])
  {
    var rs := rows[k := rows[k].(name := Some(t))];
    forall i, j | 0 <= i < |rs| && 0 <= j < |rs| && i != j && rs[i].name.Some?
      ensures rs[i].name != rs[j].name
    {
      if i != k && j != k {
        assert rs[i] == rows[i] && rs[j] == rows[j];
      }
    }
  }

  /** Changing a village's capacity keeps the table valid. */
  lemma CapacityKeepsValid(rows: seq<Village>, k: nat, capacity: int)
    requires ValidRows(rows) && k < |rows|
    ensures ValidRows(rows[k := rows[k].(capacity := capacity)])
  {
    var rs := rows[k := rows[k].(capacity := capacity)];
    assert forall i :: 0 <= i < |rs| ==>
      rs[i].id == rows[i].id && rs[i].ownerId == rows[i].ownerId && rs[i].name == rows[i].name
      && rs[i].x == rows[i].x && rs[i].y == rows[i].y;
  }

  /** The village `assignVillageToUser` creates for a user without one: on the
      first free border prairie of `cells`, with the next id, no name and the
      default capacity; an error when no such cell is left. */
  function NewVillage(cells: seq<MapGenerator.Cell>, rows: seq<Village>, userId: string, defaultCapacity: int)
    : (r: Result<Village, AssignVillageError>)
    ensures r.Err? <==> forall i :: 0 <= i < |cells| ==> !Free(cells[i], Taken(rows))
    ensures r.Ok? ==>
      r.value.id == |rows| && r.value.ownerId == userId && r.value.name.None?
      && r.value.capacity == defaultCapacity
      && IsInBorderZone(r.value.x, r.value.y)
      && (exists i :: 0 <= i < |cells| && cells[i] == MapGenerator.Cell(r.value.x, r.value.y, MapGenerator.Prairie)
                      && forall j :: 0 <= j < i ==> !Free(cells[j], Taken(rows)))
      && forall i :: 0 <= i < |rows| ==> (rows[i].x, rows[i].y) != (r.value.x, r.value.y)
  {
    var found := FindFreePrairie(cells, Taken(rows));
    if found.None? then Err(NoFreePrairie)
    else
      assert forall i :: 0 <= i < |rows| ==> (rows[i].x, rows[i].y) in Taken(rows);
      Ok(Village(|rows|, userId, found.value.x, found.value.y, None, defaultCapacity))
  }

  /** The village table. */
  class VillageTable {
    var rows: seq<Village>

    ghost predicate Valid()
      reads this
    {
      ValidRows(rows)
    }

    constructor ()
      ensures Valid() && rows == []
    {
      rows := [];
    }

    /** `assignVillageToUser`: the caller's existing village, or a new one on the
        first free border prairie of the world map in row-major order. The new
        village's capacity is the store's column default, passed in. */
    method AssignVillageToUser(userId: string, defaultCapacity: int) returns (r: Result<Village, AssignVillageError>)
      requires Valid()
      modifies this
      ensures Valid()
      ensures OwnedFrom(old(rows), userId, 0).Some? ==>
        rows == old(rows) && r == Ok(old(rows)[OwnedFrom(old(rows), userId, 0).value])
      ensures OwnedFrom(old(rows), userId, 0).None? ==>
        r == NewVillage(Flatten(MapGenerator.WorldMap()), old(rows), userId, defaultCapacity)
        && rows == old(rows) + (if r.Ok? then [r.value] else [])
      ensures r.Ok? ==> r.value.ownerId == userId
    {
      var existing := OwnedFrom(rows, userId, 0);
      if existing.Some? {
        return Ok(rows[existing.value]);
      }
      var world := MapGenerator.GenerateWorldMap();
      r := NewVillage(Flatten(world), rows, userId, defaultCapacity);
      if r.Ok? {
        AppendKeepsValid(rows, r.value);
        rows := rows + [r.value];
      }
    }

    /** `updateVillageName`. */
    method UpdateVillageName(userId: string, name: string) returns (r: Result<string, NameError>)
      requires Valid()
      modifies this
      ensures Valid()
      ensures CheckVillageName(name).Err? ==> r == CheckVillageName(name) && rows == old(rows)
      ensures CheckVillageName(name).Ok? ==>
        var t := CheckVillageName(name).value;
        var holder := NamedFrom(old(rows), t, 0);
        var own := OwnedFrom(old(rows), userId, 0);
        if holder.Some? && old(rows)[holder.value].ownerId != userId then
          r == Err(NameTaken) && rows == old(rows)
        else if own.None? then
          r == Err(UpdateFailed) && rows == old(rows)
        else
          r == Ok(t) && rows == old(rows)[own.value := old(rows)[own.value].(name := Some(t))]
    {
      var check := CheckVillageName(name);
      if check.Err? {
        return check;
      }
      var t := check.value;
      var holder := NamedFrom(rows, t, 0);
      if holder.Some? && rows[holder.value].ownerId != userId {
        return Err(NameTaken);
      }
      var own := OwnedFrom(rows, userId, 0);
      if own.None? {
        return Err(UpdateFailed);
      }
      var k := own.value;
      CheckVillageNameStable(name);
      if holder.Some? {
        assert holder.value == k;
      }
      RenameKeepsValid(rows, k, t);
      rows := rows[k := rows[k].(name := Some(t))];
      r := Ok(t);
    }
  }
}
