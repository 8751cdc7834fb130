/**
 The in-memory cursor service of src/Pagination.ts: an insertion-ordered map from
 opaque tokens to page positions, pruned by time, evicted from the front and
 invalidated by collection.
 */
module PaginationCursors {
  import opened Common

  datatype Collection = Tools | Resources | ResourceTemplates | Prompts

  datatype CursorState = CursorState(owner: JsString, collection: Collection, revision: nat, offset: nat, view: seq<JsString>)

  /** One map entry. */
  datatype Stored = Stored(token: JsString, state: CursorState, expiresAt: int)

  const MAX_SAFE: int := 0x1F_FFFF_FFFF_FFFF

  const SCHEME: JsString := Ascii("mcp1.")
  const DOT: CodeUnit := 46

  /** 128 random bits as 32 lower-case hexadecimal digits. */
  predicate Opaque(t: JsString) {
    |t| == 32 && forall i :: 0 <= i < 32 ==> 48 <= t[i] <= 57 || 97 <= t[i] <= 102
  }

  function CursorText(owner: JsString, token: JsString): JsString {
    SCHEME + owner + [DOT] + token
  }

  /** The cursor pattern: the owner and the token it names. */
  function ReadCursor(text: JsString): Option<(JsString, JsString)> {
    if |text| == 70 && text[..5] == SCHEME && Opaque(text[5..37]) && text[37] == DOT && Opaque(text[38..]) then
      Some((text[5..37], text[38..]))
    else None
  }

  /** Exactly the issued form is read, as what it was made of. */
  lemma ReadCursorExact(text: JsString, owner: JsString, token: JsString)
    ensures ReadCursor(text) == Some((owner, token)) <==> Opaque(owner) && Opaque(token) && text == CursorText(owner, token)
  {
    var made := CursorText(owner, token);
    if Opaque(owner) && Opaque(token) {
      assert made[..5] == SCHEME && made[5..37] == owner && made[37] == DOT && made[38..] == token;
    }
    if ReadCursor(text).Some? {
      assert text == text[..5] + text[5..37] + [text[37]] + text[38..];
    }
  }

  // ----- the map -----

  function Pruned(entries: seq<Stored>, now: int): seq<Stored> {
    if entries == [] then []
    else (if now >= entries[0].expiresAt then [] else [entries[0]]) + Pruned(entries[1..], now)
  }

  function Without(entries: seq<Stored>, collections: set<Collection>): seq<Stored> {
    if entries == [] then []
    else (if entries[0].state.collection in collections then [] else [entries[0]]) + Without(entries[1..], collections)
  }

  /** What is left of the newest entries when one more must fit. */
  function Evicted(entries: seq<Stored>, capacity: nat): (r: seq<Stored>)
    requires capacity >= 1
    ensures |r| < capacity
  {
    if |entries| >= capacity then entries[|entries| - capacity + 1..] else entries
  }

  function Lookup(entries: seq<Stored>, token: JsString): Option<CursorState> {
    if entries == [] then None
    else if entries[0].token == token then Some(entries[0].state)
    else Lookup(entries[1..], token)
  }

  /** What an issue leaves of the map before it draws its token. */
  function MadeRoom(entries: seq<Stored>, capacity: nat, now: int): (r: seq<Stored>)
    requires capacity >= 1
    ensures |r| < capacity
  {
    Evicted(Pruned(entries, now), capacity)
  }

  /** What it adds once it has one. */
  function Inserted(entries: seq<Stored>, lifetime: nat, state: CursorState, now: int, token: JsString): seq<Stored> {
    var expiresAt := if now + lifetime < MAX_SAFE then now + lifetime else MAX_SAFE;
    entries + [Stored(token, state, expiresAt)]
  }

  function Issued(entries: seq<Stored>, capacity: nat, lifetime: nat, state: CursorState, now: int, token: JsString): seq<Stored>
    requires capacity >= 1
  {
    Inserted(MadeRoom(entries, capacity, now), lifetime, state, now, token)
  }

  lemma PrunedFrom(entries: seq<Stored>, index: nat, now: int)
    requires index < |entries|
    ensures Pruned(entries[index..], now) ==
            (if now >= entries[index].expiresAt then [] else [entries[index]]) + Pruned(entries[index + 1..], now)
  {
    assert entries[index..][0] == entries[index] && entries[index..][1..] == entries[index + 1..];
  }

  lemma {:induction false} PrunedKeeps(entries: seq<Stored>, now: int)
    ensures |Pruned(entries, now)| <= |entries|
    ensures forall e :: e in Pruned(entries, now) <==> e in entries && now < e.expiresAt
  {
    if entries != [] {
      PrunedKeeps(entries[1..], now);
      Head(entries);
    }
  }

  lemma {:induction false} WithoutKeeps(entries: seq<Stored>, collections: set<Collection>)
    ensures |Without(entries, collections)| <= |entries|
    ensures forall e :: e in Without(entries, collections) <==> e in entries && e.state.collection !in collections
  {
    if entries != [] {
      WithoutKeeps(entries[1..], collections);
      Head(entries);
    }
  }

  lemma {:induction false} LookupFinds(entries: seq<Stored>, token: JsString)
    requires Lookup(entries, token).Some?
    ensures exists e :: e in entries && e.token == token && e.state == Lookup(entries, token).value
  {
    Head(entries);
    if entries[0].token != token {
      LookupFinds(entries[1..], token);
      var e :| e in entries[1..] && e.token == token && e.state == Lookup(entries[1..], token).value;
      assert e in entries;
    } else {
      assert entries[0] in entries;
    }
  }

  predicate Holds(entries: seq<Stored>, token: JsString) {
    exists i :: 0 <= i < |entries| && entries[i].token == token
  }

  /** How many draws are redrawn because their token is stored. */
  function Redrawn(entries: seq<Stored>, draws: seq<JsString>): nat {
    if draws == [] || !Holds(entries, draws[0]) then 0 else 1 + Redrawn(entries, draws[1..])
  }

  /** The loop stops at the first draw that is not stored, and only there. */
  lemma {:induction false} RedrawnExact(entries: seq<Stored>, draws: seq<JsString>)
    ensures Redrawn(entries, draws) <= |draws|
    ensures forall k :: 0 <= k < Redrawn(entries, draws) ==> Holds(entries, draws[k])
    ensures Redrawn(entries, draws) < |draws| ==> !Holds(entries, draws[Redrawn(entries, draws)])
  {
    hide Holds;
    if draws != [] && Holds(entries, draws[0]) {
      RedrawnExact(entries, draws[1..]);
      Head(draws);
    }
  }

  /** `entries.has(token)`. */
  method Has(entries: seq<Stored>, token: JsString) returns (found: bool)
    ensures found == Holds(entries, token)
  {
    for index := 0 to |entries|
      invariant forall i :: 0 <= i < index ==> entries[i].token != token
    {
      if entries[index].token == token {
        return true;
      }
    }
    return false;
  }

  lemma {:induction false} LookupReaches(entries: seq<Stored>, e: Stored)
    requires e in entries
    ensures Lookup(entries, e.token).Some?
  {
    Head(entries);
    if entries[0].token != e.token {
      LookupReaches(entries[1..], e);
    }
  }

  /** Making room evicts from the front only, and never more than it must. */
  lemma MadeRoomKeepsNewest(entries: seq<Stored>, capacity: nat, now: int)
    requires capacity >= 1
    ensures |Pruned(entries, now)| < capacity ==> MadeRoom(entries, capacity, now) == Pruned(entries, now)
    ensures |Pruned(entries, now)| >= capacity ==> |MadeRoom(entries, capacity, now)| == capacity - 1
    ensures forall e :: e in MadeRoom(entries, capacity, now) ==> e in entries && now < e.expiresAt
  {
    PrunedKeeps(entries, now);
    hide Pruned;
  }

  lemma {:induction false} LookupAppended(entries: seq<Stored>, e: Stored)
    ensures Lookup(entries + [e], e.token) == if Lookup(entries, e.token).Some? then Lookup(entries, e.token) else Some(e.state)
  {
    if entries == [] {
      assert entries + [e] == [e];
    } else {
      assert (entries + [e])[1..] == entries[1..] + [e];
      LookupAppended(entries[1..], e);
    }
  }

  lemma {:induction false} PrunedAppended(entries: seq<Stored>, e: Stored, now: int)
    ensures Pruned(entries + [e], now) == Pruned(entries, now) + (if now >= e.expiresAt then [] else [e])
  {
    if entries == [] {
      assert entries + [e] == [e] && [e][1..] == [];
    } else {
      assert (entries + [e])[1..] == entries[1..] + [e];
      PrunedAppended(entries[1..], e, now);
    }
  }

  /** A cursor just issued resolves to its state until its lifetime is over, and to nothing from then on. */
  lemma IssuedResolves(entries: seq<Stored>, capacity: nat, lifetime: nat, owner: JsString, state: CursorState, now: int, token: JsString, later: int)
    requires capacity >= 1 && Opaque(owner) && Opaque(token) && forall e :: e in entries ==> e.token != token
    ensures Resolved(Issued(entries, capacity, lifetime, state, now, token), owner, CursorText(owner, token), later).0 ==
            if later < now + lifetime && later < 9_007_199_254_740_991 then Some(state) else None
  {
    var kept := MadeRoom(entries, capacity, now);
    var e := Stored(token, state, if now + lifetime < MAX_SAFE then now + lifetime else MAX_SAFE);
    ReadCursorExact(CursorText(owner, token), owner, token);
    MadeRoomKeepsNewest(entries, capacity, now);
    PrunedKeeps(kept, later);
    PrunedAppended(kept, e, later);
    LookupAppended(Pruned(kept, later), e);
    hide MadeRoom;
    hide ReadCursor;
    hide CursorText;
    hide Pruned;
    if Lookup(Pruned(kept, later), token).Some? {
      LookupFinds(Pruned(kept, later), token);
    }
    assert Pruned(kept, later) + [] == Pruned(kept, later);
  }

  /** The service: `entries` is the map in insertion order. */
  class CursorMemory {
    const owner: JsString
    const capacity: nat
    const lifetime: nat
    var entries: seq<Stored>

    predicate Valid()
      reads this
    {
      Opaque(owner) && 1 <= capacity && 1 <= lifetime
    }

    constructor (owner: JsString, capacity: nat, lifetime: nat)
      requires Opaque(owner) && 1 <= capacity && 1 <= lifetime
      ensures Valid() && entries == []
      ensures this.owner == owner && this.capacity == capacity && this.lifetime == lifetime
    {
      this.owner, this.capacity, this.lifetime := owner, capacity, lifetime;
      entries := [];
    }

    method Prune(now: int)
      modifies this`entries
      ensures entries == Pruned(old(entries), now)
    {
      var kept: seq<Stored> := [];
      assert entries[0..] == entries;
      for index := 0 to |entries|
        invariant entries == old(entries)
        invariant kept + Pruned(entries[index..], now) == Pruned(entries, now)
      {
        var entry := entries[index];
        PrunedFrom(entries, index, now);
        hide Pruned;
        if now < entry.expiresAt {
          Assoc(kept, [entry], Pruned(entries[index + 1..], now));
          kept := kept + [entry];
        } else {
          assert [] + Pruned(entries[index + 1..], now) == Pruned(entries[index + 1..], now);
        }
      }
      entries := kept;
    }

    /** `issue` up to its draw: other fibres may run before the token is there. */
    method MakeRoom(now: int)
      requires Valid()
      modifies this`entries
      ensures Valid() && entries == MadeRoom(old(entries), capacity, now)
      ensures var unexpired := Pruned(old(entries), now);
              entries == unexpired[|unexpired| - |entries|..] && |entries| == if |unexpired| < capacity then |unexpired| else capacity - 1
    {
      Prune(now);
      ghost var pruned := entries;
      while |entries| >= capacity
        invariant |entries| <= |pruned| && entries == pruned[|pruned| - |entries|..]
        invariant |pruned| < capacity ==> entries == pruned
        invariant |entries| >= capacity - 1 || entries == pruned
        decreases |entries|
      {
        entries := entries[1..];
      }
      assert entries == Evicted(pruned, capacity);
    }

    /** `issue`; `draws` are the random tokens in the order drawn. While all of them are taken the loop is still drawing and nothing is issued. */
    method Issue(state: CursorState, now: int, draws: seq<JsString>) returns (cursor: Option<JsString>)
      requires Valid()
      modifies this
      ensures Valid()
      ensures var kept := MadeRoom(old(entries), capacity, now);
              var redrawn := Redrawn(kept, draws);
              && redrawn <= |draws| && (cursor.None? <==> redrawn == |draws|)
              && (forall k :: 0 <= k < redrawn ==> Holds(kept, draws[k]))
              && if redrawn == |draws| then entries == kept
                 else !Holds(kept, draws[redrawn]) && cursor == Some(CursorText(owner, draws[redrawn]))
                      && entries == Issued(old(entries), capacity, lifetime, state, now, draws[redrawn])
    {
      MakeRoom(now);
      var index := FirstFree(draws);
      if index == |draws| {
        return None;
      }
      var token := draws[index];
      var expiresAt := if now + lifetime < MAX_SAFE then now + lifetime else MAX_SAFE;
      entries := entries + [Stored(token, state, expiresAt)];
      cursor := Some(CursorText(owner, token));
    }

    /** The redraw loop. */
    method FirstFree(draws: seq<JsString>) returns (index: nat)
      ensures index == Redrawn(entries, draws) <= |draws|
      ensures forall k :: 0 <= k < index ==> Holds(entries, draws[k])
      ensures index < |draws| ==> !Holds(entries, draws[index])
    {
      hide Holds;
      index := 0;
      var taken := true;
      while index < |draws| && taken
        invariant index <= |draws| && (!taken ==> index < |draws|)
        invariant Redrawn(entries, draws) == index + if taken then Redrawn(entries, draws[index..]) else 0
        decreases |draws| - index, taken
      {
        assert draws[index..][0] == draws[index] && draws[index..][1..] == draws[index + 1..];
        taken := Has(entries, draws[index]);
        if taken {
          index := index + 1;
        }
      }
      RedrawnExact(entries, draws);
    }

    /** `resolve`: a cursor of another service does not even prune. */
    method Resolve(cursor: JsString, now: int) returns (state: Option<CursorState>)
      modifies this
      ensures (state, entries) == Resolved(old(entries), owner, cursor, now)
    {
      var parts := ReadCursor(cursor);
      if parts.None? || parts.value.0 != owner {
        return None;
      }
      Prune(now);
      state := Lookup(entries, parts.value.1);
    }

    /** `invalidate`. */
    method Invalidate(collections: Option<seq<Collection>>)
      modifies this
      ensures entries == if collections.None? then [] else Without(old(entries), set c | c in collections.value)
    {
      if collections.None? {
        entries := [];
        return;
      }
      var selected: set<Collection> := {};
      for index := 0 to |collections.value|
        invariant selected == set c | c in collections.value[..index]
      {
        assert collections.value[..index + 1] == collections.value[..index] + [collections.value[index]];
        selected := selected + {collections.value[index]};
      }
      assert collections.value[..|collections.value|] == collections.value;
      var kept: seq<Stored> := [];
      assert entries[0..] == entries;
      for index := 0 to |entries|
        invariant entries == old(entries)
        invariant kept + Without(entries[index..], selected) == Without(entries, selected)
      {
        var entry := entries[index];
        assert entries[index..][0] == entry && entries[index..][1..] == entries[index + 1..];
        if entry.state.collection !in selected {
          Assoc(kept, [entry], Without(entries[index + 1..], selected));
          kept := kept + [entry];
        }
      }
      entries := kept;
    }
  }

  function Resolved(entries: seq<Stored>, owner: JsString, cursor: JsString, now: int): (Option<CursorState>, seq<Stored>) {
    match ReadCursor(cursor)
    case None => (None, entries)
    case Some((named, token)) =>
      if named != owner then (None, entries) else (Lookup(Pruned(entries, now), token), Pruned(entries, now))
  }
}
