/**
 The in-memory client cache of src/McpCache.ts: an insertion-ordered map from
 canonical key texts, kept in order of last use and evicted from the front.
 A run of operations is followed from the empty cache at a given capacity.
 */
module MemoryCache {
  import opened Common
  import opened CanonicalJson
  import opened CacheKeys

  /** One map entry: the canonical text of the key, the key as stored, the cached value. */
  datatype Slot = Slot(text: JsString, key: CacheKey, entry: CacheEntry)

  function Texts(slots: seq<Slot>): set<JsString> {
    set i | 0 <= i < |slots| :: slots[i].text
  }

  predicate Distinct(slots: seq<Slot>) {
    forall i, j :: 0 <= i < j < |slots| ==> slots[i].text != slots[j].text
  }

  /** `entries.get`. */
  function Find(slots: seq<Slot>, text: JsString): (found: Option<Slot>)
    ensures found.Some? <==> text in Texts(slots)
    ensures found.Some? ==> found.value in slots && found.value.text == text
  {
    if slots == [] then None
    else if slots[0].text == text then Some(slots[0])
    else
      Head(slots);
      assert Texts(slots) == {slots[0].text} + Texts(slots[1..]) by { TextsOfCons(slots); }
      Find(slots[1..], text)
  }

  lemma TextsOfCons(slots: seq<Slot>)
    requires slots != []
    ensures Texts(slots) == {slots[0].text} + Texts(slots[1..])
  {
    forall t | t in Texts(slots) ensures t in {slots[0].text} + Texts(slots[1..]) {
      var i :| 0 <= i < |slots| && slots[i].text == t;
      if i > 0 { assert slots[1..][i - 1].text == t; }
    }
    forall t | t in Texts(slots[1..]) ensures t in Texts(slots) {
      var i :| 0 <= i < |slots[1..]| && slots[1..][i].text == t;
      assert slots[i + 1].text == t;
    }
  }

  lemma NoTextInTail(slots: seq<Slot>)
    requires Distinct(slots) && slots != []
    ensures slots[0].text !in Texts(slots[1..]) && Texts(slots[1..]) == Texts(slots) - {slots[0].text}
  {
    TextsOfCons(slots);
    forall t | t in Texts(slots[1..]) ensures t != slots[0].text {
      var i :| 0 <= i < |slots[1..]| && slots[1..][i].text == t;
      assert slots[i + 1].text == t;
    }
  }

  /** The slots whose text satisfies `keep`, in order. */
  function Keep(slots: seq<Slot>, keep: Slot -> bool): (r: seq<Slot>)
    ensures forall s :: s in r <==> s in slots && keep(s)
    ensures |r| <= |slots|
  {
    if slots == [] then []
    else
      Head(slots);
      (if keep(slots[0]) then [slots[0]] else []) + Keep(slots[1..], keep)
  }

  /** `entries.delete`. */
  function Remove(slots: seq<Slot>, text: JsString): seq<Slot> {
    Keep(slots, (s: Slot) => s.text != text)
  }

  function Restrict(slots: seq<Slot>, texts: set<JsString>): seq<Slot> {
    Keep(slots, (s: Slot) => s.text in texts)
  }

  /** The `invalidate` loop: entries whose stored key the selector matches go. */
  function Purge(slots: seq<Slot>, selector: Selector): seq<Slot> {
    Keep(slots, (s: Slot) => !Matches(selector, s.key))
  }

  lemma {:induction false} KeepAppend(a: seq<Slot>, b: seq<Slot>, keep: Slot -> bool)
    ensures Keep(a + b, keep) == Keep(a, keep) + Keep(b, keep)
  {
    if a == [] {
      assert a + b == b;
    } else {
      assert (a + b)[1..] == a[1..] + b;
      KeepAppend(a[1..], b, keep);
    }
  }

  lemma {:induction false} KeepKeep(a: seq<Slot>, f: Slot -> bool, g: Slot -> bool)
    ensures Keep(Keep(a, f), g) == Keep(Keep(a, g), f)
  {
    if a != [] {
      var x, rest := [a[0]], a[1..];
      KeepKeep(rest, f, g);
      KeepAppend(if f(a[0]) then x else [], Keep(rest, f), g);
      KeepAppend(if g(a[0]) then x else [], Keep(rest, g), f);
      KeepOne(a[0], f);
      KeepOne(a[0], g);
    }
  }

  lemma KeepOne(x: Slot, f: Slot -> bool)
    ensures Keep([x], f) == if f(x) then [x] else []
  {
    assert [x][1..] == [];
  }

  lemma {:induction false} KeepAgree(a: seq<Slot>, f: Slot -> bool, g: Slot -> bool)
    requires forall s :: s in a ==> f(s) == g(s)
    ensures Keep(a, f) == Keep(a, g)
  {
    if a != [] {
      Head(a);
      KeepAgree(a[1..], f, g);
    }
  }

  lemma {:induction false} KeepAll(a: seq<Slot>, f: Slot -> bool)
    requires forall s :: s in a ==> f(s)
    ensures Keep(a, f) == a
  {
    if a != [] {
      Head(a);
      KeepAll(a[1..], f);
    }
  }

  lemma {:induction false} KeepDistinct(a: seq<Slot>, f: Slot -> bool)
    requires Distinct(a)
    ensures Distinct(Keep(a, f))
  {
    if a != [] {
      KeepDistinct(a[1..], f);
      var rest := Keep(a[1..], f);
      forall s | s in rest ensures s.text != a[0].text {
        var i :| 0 <= i < |a[1..]| && a[1..][i] == s;
        assert a[i + 1] == s;
      }
    }
  }

  // ----- the three operations on the slot sequence -----

  /** Drop from the front until `capacity` slots are left. */
  function Evict(slots: seq<Slot>, capacity: nat): seq<Slot> {
    if |slots| > capacity then slots[|slots| - capacity..] else slots
  }

  function AfterGet(slots: seq<Slot>, text: JsString): seq<Slot> {
    match Find(slots, text)
    case None => slots
    case Some(found) => Remove(slots, text) + [found]
  }

  function AfterSet(slots: seq<Slot>, capacity: nat, slot: Slot): seq<Slot> {
    Evict(Remove(slots, slot.text) + [slot], capacity)
  }

  lemma AppendFresh(slots: seq<Slot>, slot: Slot)
    requires Distinct(slots)
    ensures Distinct(Remove(slots, slot.text) + [slot])
  {
    KeepDistinct(slots, (s: Slot) => s.text != slot.text);
    var others := Remove(slots, slot.text);
    forall i | 0 <= i < |others| ensures others[i].text != slot.text {
      assert others[i] in others;
    }
  }

  /** The service of `McpCache.memory`. */
  class MemoryCache {
    const capacity: nat
    const keyText: CacheKey -> JsString
    var entries: seq<Slot>

    ghost predicate Valid()
      reads this
    {
      capacity >= 1 && |entries| <= capacity && Distinct(entries) && forall s :: s in entries ==> s.text == keyText(s.key)
    }

    constructor (capacity: nat, keyText: CacheKey -> JsString)
      requires capacity >= 1
      ensures Valid() && entries == [] && this.capacity == capacity && this.keyText == keyText
    {
      this.capacity := capacity;
      this.keyText := keyText;
      entries := [];
    }

    method Get(key: CacheKey) returns (entry: Option<CacheEntry>)
      requires Valid()
      modifies this`entries
      ensures Valid() && entries == AfterGet(old(entries), keyText(key))
      ensures entry == match Find(old(entries), keyText(key)) { case None => None case Some(slot) => Some(slot.entry) }
    {
      var encoded := keyText(key);
      var found := Find(entries, encoded);
      if found.None? {
        return None;
      }
      AppendFresh(entries, found.value);
      RemoveFound(entries, encoded);
      entries := Remove(entries, encoded);
      entries := entries + [found.value];
      return Some(found.value.entry);
    }

    method Set(key: CacheKey, entry: CacheEntry)
      requires Valid()
      modifies this`entries
      ensures Valid() && entries == AfterSet(old(entries), capacity, Slot(keyText(key), key, entry))
    {
      var slot := Slot(keyText(key), key, entry);
      AppendFresh(entries, slot);
      entries := Remove(entries, slot.text);
      entries := entries + [slot];
      ghost var full := entries;
      while |entries| > capacity
        invariant |entries| <= |full| && entries == full[|full| - |entries|..] && (|entries| < |full| ==> |entries| >= capacity)
      {
        entries := entries[1..];
      }
    }

    method Invalidate(selector: Selector)
      requires Valid()
      modifies this`entries
      ensures Valid() && entries == Purge(old(entries), selector)
    {
      KeepDistinct(entries, (s: Slot) => !Matches(selector, s.key));
      var visited, kept := 0, [];
      while visited < |entries|
        invariant visited <= |entries| && entries == old(entries) && kept == Purge(entries[..visited], selector)
      {
        PurgeNext(entries, visited, selector);
        var stored := entries[visited];
        if !Matches(selector, stored.key) {
          kept := kept + [stored];
        }
        visited := visited + 1;
      }
      assert entries[..visited] == entries;
      entries := kept;
    }
  }

  lemma PurgeNext(slots: seq<Slot>, n: nat, selector: Selector)
    requires n < |slots|
    ensures Purge(slots[..n + 1], selector) == Purge(slots[..n], selector) + (if Matches(selector, slots[n].key) then [] else [slots[n]])
  {
    assert slots[..n + 1] == slots[..n] + [slots[n]];
    KeepAppend(slots[..n], [slots[n]], (s: Slot) => !Matches(selector, s.key));
    KeepOne(slots[n], (s: Slot) => !Matches(selector, s.key));
  }

  lemma {:induction false} RemoveFound(slots: seq<Slot>, text: JsString)
    requires Distinct(slots)
    ensures |Remove(slots, text)| == if text in Texts(slots) then |slots| - 1 else |slots|
  {
    if slots != [] {
      NoTextInTail(slots);
      RemoveFound(slots[1..], text);
    }
  }

  // ----- runs -----

  datatype Op = Get(text: JsString) | Set(slot: Slot) | Invalidate(selector: Selector)

  function Step(slots: seq<Slot>, capacity: nat, op: Op): seq<Slot> {
    match op
    case Get(text) => AfterGet(slots, text)
    case Set(slot) => AfterSet(slots, capacity, slot)
    case Invalidate(selector) => Purge(slots, selector)
  }

  /** The entries after the first `n` operations, at one capacity. */
  function Run(capacity: nat, ops: seq<Op>, n: nat): seq<Slot>
    requires n <= |ops|
  {
    if n == 0 then [] else Step(Run(capacity, ops, n - 1), capacity, ops[n - 1])
  }

  /** Never more entries than the capacity, never two entries with one text. */
  lemma {:induction false} RunBounded(capacity: nat, ops: seq<Op>, n: nat)
    requires n <= |ops|
    ensures |Run(capacity, ops, n)| <= capacity && Distinct(Run(capacity, ops, n))
  {
    if n > 0 {
      hide Keep;
      hide Find;
      RunBounded(capacity, ops, n - 1);
      var before := Run(capacity, ops, n - 1);
      match ops[n - 1]
      case Get(text) =>
        RemoveFound(before, text);
        if text in Texts(before) { AppendFresh(before, Find(before, text).value); }
      case Set(slot) => AppendFresh(before, slot);
      case Invalidate(selector) => KeepDistinct(before, (s: Slot) => !Matches(selector, s.key));
    }
  }

  // ----- least recently used -----

  /** Whether the `n`-th operation uses a text: a `set` of it, or a `get` that hits. */
  predicate Uses(capacity: nat, ops: seq<Op>, n: nat, text: JsString)
    requires 0 < n <= |ops|
  {
    match ops[n - 1]
    case Get(t) => t == text && t in Texts(Run(capacity, ops, n - 1))
    case Set(slot) => slot.text == text
    case Invalidate(_) => false
  }

  /** When a text was last used, 0 for never. */
  function LastUse(capacity: nat, ops: seq<Op>, n: nat, text: JsString): (t: nat)
    requires n <= |ops|
    ensures t <= n
  {
    if n == 0 then 0 else if Uses(capacity, ops, n, text) then n else LastUse(capacity, ops, n - 1, text)
  }

  ghost predicate ByRecency(capacity: nat, ops: seq<Op>, n: nat, slots: seq<Slot>)
    requires n <= |ops|
  {
    forall i, j :: 0 <= i < j < |slots| ==> LastUse(capacity, ops, n, slots[i].text) < LastUse(capacity, ops, n, slots[j].text)
  }

  /** Keeping some slots keeps their order. */
  lemma {:induction false} KeepByRecency(capacity: nat, ops: seq<Op>, n: nat, slots: seq<Slot>, keep: Slot -> bool)
    requires n <= |ops| && ByRecency(capacity, ops, n, slots)
    ensures ByRecency(capacity, ops, n, Keep(slots, keep))
  {
    if slots != [] {
      hide LastUse;
      var rest := slots[1..];
      KeepByRecency(capacity, ops, n, rest, keep);
      forall s | s in Keep(rest, keep) ensures LastUse(capacity, ops, n, slots[0].text) < LastUse(capacity, ops, n, s.text) {
        var i :| 0 <= i < |rest| && rest[i] == s;
        assert slots[i + 1] == s;
      }
      var kept := Keep(rest, keep);
      assert Keep(slots, keep) == if keep(slots[0]) then [slots[0]] + kept else [] + kept;
      assert [] + kept == kept;
      hide Keep;
      OlderFirst(capacity, ops, n, slots[0], kept);
    }
  }

  lemma OlderFirst(capacity: nat, ops: seq<Op>, n: nat, oldest: Slot, slots: seq<Slot>)
    requires n <= |ops| && ByRecency(capacity, ops, n, slots)
    requires forall s :: s in slots ==> LastUse(capacity, ops, n, oldest.text) < LastUse(capacity, ops, n, s.text)
    ensures ByRecency(capacity, ops, n, [oldest] + slots)
  {
    hide LastUse;
  }

  /** Using `text` at step `n` moves it behind every other slot. */
  lemma UsedLast(capacity: nat, ops: seq<Op>, n: nat, slots: seq<Slot>, slot: Slot)
    requires 0 < n <= |ops| && ByRecency(capacity, ops, n - 1, slots) && Uses(capacity, ops, n, slot.text)
    requires forall t :: t != slot.text ==> !Uses(capacity, ops, n, t)
    ensures ByRecency(capacity, ops, n, Remove(slots, slot.text) + [slot])
  {
    var others := Remove(slots, slot.text);
    KeepByRecency(capacity, ops, n - 1, slots, (s: Slot) => s.text != slot.text);
    forall i | 0 <= i < |others| ensures LastUse(capacity, ops, n, others[i].text) == LastUse(capacity, ops, n - 1, others[i].text) {
      assert others[i] in others;
    }
  }

  /** In every reachable state the entries stand in order of last use. */
  lemma {:induction false} RunByRecency(capacity: nat, ops: seq<Op>, n: nat)
    requires n <= |ops|
    ensures ByRecency(capacity, ops, n, Run(capacity, ops, n))
  {
    if n > 0 {
      hide Keep;
      hide Find;
      RunByRecency(capacity, ops, n - 1);
      var before := Run(capacity, ops, n - 1);
      match ops[n - 1]
      case Get(text) =>
        if text in Texts(before) { UsedLast(capacity, ops, n, before, Find(before, text).value); }
      case Set(slot) => UsedLast(capacity, ops, n, before, slot);
      case Invalidate(selector) => KeepByRecency(capacity, ops, n - 1, before, (s: Slot) => !Matches(selector, s.key));
    }
  }

  /** A slot a `set` evicts was used longer ago than every slot that stays. */
  lemma EvictsLeastRecentlyUsed(capacity: nat, ops: seq<Op>, n: nat, gone: Slot, kept: Slot)
    requires 0 < n <= |ops| && ops[n - 1].Set?
    requires gone in Run(capacity, ops, n - 1) && gone.text != ops[n - 1].slot.text
    requires gone !in Run(capacity, ops, n) && kept in Run(capacity, ops, n)
    ensures |Run(capacity, ops, n)| == capacity
    ensures LastUse(capacity, ops, n, gone.text) < LastUse(capacity, ops, n, kept.text)
  {
    hide LastUse;
    hide Remove;
    var before, slot := Run(capacity, ops, n - 1), ops[n - 1].slot;
    RunByRecency(capacity, ops, n - 1);
    UsedLast(capacity, ops, n, before, slot);
    KeepsOthers(before, slot.text, gone);
    EvictedBefore(capacity, ops, n, Remove(before, slot.text) + [slot], gone, kept);
  }

  lemma KeepsOthers(slots: seq<Slot>, text: JsString, s: Slot)
    requires s in slots && s.text != text
    ensures s in Remove(slots, text)
  {
  }

  lemma EvictedBefore(capacity: nat, ops: seq<Op>, n: nat, full: seq<Slot>, gone: Slot, kept: Slot)
    requires n <= |ops| && ByRecency(capacity, ops, n, full)
    requires gone in full && gone !in Evict(full, capacity) && kept in Evict(full, capacity)
    ensures |Evict(full, capacity)| == capacity
    ensures LastUse(capacity, ops, n, gone.text) < LastUse(capacity, ops, n, kept.text)
  {
    hide LastUse;
    var after := Evict(full, capacity);
    var i :| 0 <= i < |full| && full[i] == gone;
    var j :| 0 <= j < |after| && after[j] == kept;
    var cut := |full| - |after|;
    assert full[cut + j] == kept;
    forall k | cut <= k < |full| ensures full[k] in after {
      assert full[k] == after[k - cut];
    }
    hide Evict;
  }

  // ----- contents -----

  /** The slot last set under a text and not matched by an invalidation since. */
  function Live(ops: seq<Op>, n: nat, text: JsString): Option<Slot>
    requires n <= |ops|
  {
    if n == 0 then None
    else
      match ops[n - 1]
      case Set(slot) => if slot.text == text then Some(slot) else Live(ops, n - 1, text)
      case Invalidate(selector) =>
        var before := Live(ops, n - 1, text);
        if before.Some? && Matches(selector, before.value.key) then None else before
      case Get(_) => Live(ops, n - 1, text)
  }

  /** Where a slot of the next state comes from. */
  lemma StepOrigin(slots: seq<Slot>, capacity: nat, op: Op, s: Slot)
    requires s in Step(slots, capacity, op)
    ensures s in slots || (op.Set? && s == op.slot)
    ensures op.Set? && s.text == op.slot.text ==> s == op.slot
    ensures op.Invalidate? ==> !Matches(op.selector, s.key)
  {
    hide Keep;
    hide Find;
    hide Texts;
    hide Matches;
    if op.Set? {
      var full := Remove(slots, op.slot.text) + [op.slot];
      var after := Evict(full, capacity);
      var j :| 0 <= j < |after| && after[j] == s;
      assert full[|full| - |after| + j] == s;
      assert s in Remove(slots, op.slot.text) || s == op.slot;
    }
  }

  /** Whatever the cache holds is the last value set under that key and not invalidated since. */
  lemma {:induction false} RunHoldsLive(capacity: nat, ops: seq<Op>, n: nat, s: Slot)
    requires n <= |ops| && s in Run(capacity, ops, n)
    ensures Live(ops, n, s.text) == Some(s)
  {
    if n > 0 {
      hide Step;
      hide Matches;
      var before := Run(capacity, ops, n - 1);
      StepOrigin(before, capacity, ops[n - 1], s);
      if s in before { RunHoldsLive(capacity, ops, n - 1, s); }
    }
  }

  function SetText(op: Op): set<JsString> {
    if op.Set? then {op.slot.text} else {}
  }

  /** The distinct key texts set so far. */
  function SetTexts(ops: seq<Op>, n: nat): set<JsString>
    requires n <= |ops|
  {
    if n == 0 then {} else SetTexts(ops, n - 1) + SetText(ops[n - 1])
  }

  lemma StepTexts(slots: seq<Slot>, capacity: nat, op: Op)
    ensures Texts(Step(slots, capacity, op)) <= Texts(slots) + SetText(op)
  {
    hide Step;
    hide Matches;
    var after := Step(slots, capacity, op);
    forall t | t in Texts(after) ensures t in Texts(slots) + SetText(op) {
      var i :| 0 <= i < |after| && after[i].text == t;
      assert after[i] in after;
      StepOrigin(slots, capacity, op, after[i]);
      if after[i] in slots { InTexts(slots, after[i]); }
    }
  }

  lemma RunStep(capacity: nat, ops: seq<Op>, n: nat)
    requires 1 <= n <= |ops|
    ensures Run(capacity, ops, n) == Step(Run(capacity, ops, n - 1), capacity, ops[n - 1])
    ensures SetTexts(ops, n) == SetTexts(ops, n - 1) + SetText(ops[n - 1])
  {
    hide Step;
  }

  /** The cache holds only texts that were set. */
  lemma {:induction false} RunTexts(capacity: nat, ops: seq<Op>, n: nat)
    requires n <= |ops|
    ensures Texts(Run(capacity, ops, n)) <= SetTexts(ops, n)
  {
    if n > 0 {
      RunTexts(capacity, ops, n - 1);
      RunStep(capacity, ops, n);
      StepTexts(Run(capacity, ops, n - 1), capacity, ops[n - 1]);
      hide *;
    }
  }

  lemma {:induction false} DistinctSize(slots: seq<Slot>)
    requires Distinct(slots)
    ensures |slots| == |Texts(slots)|
  {
    if slots != [] {
      NoTextInTail(slots);
      TextsOfCons(slots);
      DistinctSize(slots[1..]);
    }
  }

  /** A `set` evicts nothing when its text fits beside the others. */
  lemma SetFits(slots: seq<Slot>, capacity: nat, slot: Slot)
    requires Distinct(slots) && |Texts(slots) + {slot.text}| <= capacity
    ensures AfterSet(slots, capacity, slot) == Remove(slots, slot.text) + [slot]
  {
    var full := Remove(slots, slot.text) + [slot];
    AppendFresh(slots, slot);
    DistinctSize(full);
    TextsOfRemove(slots, slot.text);
    TextsOfAppend(Remove(slots, slot.text), slot);
    hide Texts;
    assert Texts(full) == Texts(slots) + {slot.text};
  }

  /** With room for its text, only a `set` of the same text or a matching invalidation removes a slot. */
  lemma StepKeeps(slots: seq<Slot>, capacity: nat, op: Op, s: Slot)
    requires s in slots && Distinct(slots)
    requires op.Set? ==> s.text != op.slot.text && |Texts(slots) + SetText(op)| <= capacity
    requires op.Invalidate? ==> !Matches(op.selector, s.key)
    ensures s in Step(slots, capacity, op)
  {
    match op
    case Get(text) =>
      if text in Texts(slots) {
        var found := Find(slots, text).value;
        if s.text == text { SlotOfText(slots, s, found); } else { KeepsOthers(slots, text, s); }
      }
    case Set(slot) =>
      SetFits(slots, capacity, slot);
      KeepsOthers(slots, slot.text, s);
    case Invalidate(_) =>
  }

  /** What is live now was just set, or was live before and is not invalidated. */
  lemma LiveStep(ops: seq<Op>, n: nat, text: JsString)
    requires n <= |ops| && Live(ops, n, text).Some?
    ensures n > 0
    ensures var op := ops[n - 1];
            if op.Set? && op.slot.text == text then Live(ops, n, text) == Some(op.slot)
            else Live(ops, n - 1, text) == Live(ops, n, text) && (op.Invalidate? ==> !Matches(op.selector, Live(ops, n, text).value.key))
  {
    hide Matches;
  }

  lemma RoomForOne(held: set<JsString>, before: set<JsString>, added: set<JsString>, after: set<JsString>)
    requires held <= before && after == before + added
    ensures |before| <= |after| && |held + added| <= |after| && |added| <= |after|
  {
    SubsetBound(before, after);
    SubsetBound(held + added, after);
    SubsetBound(added, after);
  }

  /** Until more than `capacity` distinct key texts were set, nothing that is live is lost. */
  lemma {:induction false} RoomKeepsLive(capacity: nat, ops: seq<Op>, n: nat, text: JsString)
    requires n <= |ops| && |SetTexts(ops, n)| <= capacity && Live(ops, n, text).Some?
    ensures Live(ops, n, text).value in Run(capacity, ops, n)
  {
    hide *;
    LiveStep(ops, n, text);
    var op, before := ops[n - 1], Run(capacity, ops, n - 1);
    LiveText(ops, n, text);
    RunStep(capacity, ops, n);
    RunTexts(capacity, ops, n - 1);
    RunBounded(capacity, ops, n - 1);
    RoomForOne(Texts(before), SetTexts(ops, n - 1), SetText(op), SetTexts(ops, n));
    if op.Set? && op.slot.text == text {
      SetStep(before, capacity, op);
    } else {
      RoomKeepsLive(capacity, ops, n - 1, text);
      StepKeeps(before, capacity, op, Live(ops, n, text).value);
    }
  }

  lemma SetStep(slots: seq<Slot>, capacity: nat, op: Op)
    requires op.Set? && |SetText(op)| <= capacity
    ensures op.slot in Step(slots, capacity, op)
  {
    SetStays(slots, capacity, op.slot);
  }

  lemma SetStays(slots: seq<Slot>, capacity: nat, slot: Slot)
    requires capacity >= 1
    ensures slot in AfterSet(slots, capacity, slot)
  {
    var full := Remove(slots, slot.text) + [slot];
    var after := Evict(full, capacity);
    assert after[|after| - 1] == full[|full| - 1] == slot;
  }

  lemma {:induction false} LiveText(ops: seq<Op>, n: nat, text: JsString)
    requires n <= |ops| && Live(ops, n, text).Some?
    ensures Live(ops, n, text).value.text == text
  {
    if n > 0 && Live(ops, n - 1, text).Some? { LiveText(ops, n - 1, text); }
  }

  // ----- inclusion: a larger cache retains whatever a smaller one retains -----

  /** `small` is `large` with some slots left out, and lags behind by at most `slack` slots. */
  ghost predicate Included(small: seq<Slot>, large: seq<Slot>, slack: nat) {
    && Distinct(large)
    && small == Restrict(large, Texts(small))
    && |large| <= |small| + slack
  }

  lemma InTexts(slots: seq<Slot>, s: Slot)
    requires s in slots
    ensures s.text in Texts(slots)
  {
    var i :| 0 <= i < |slots| && slots[i] == s;
    assert slots[i].text == s.text;
  }

  lemma SlotOfText(slots: seq<Slot>, s: Slot, t: Slot)
    requires Distinct(slots) && s in slots && t in slots && s.text == t.text
    ensures s == t
  {
  }

  lemma RestrictAgree(slots: seq<Slot>, a: set<JsString>, b: set<JsString>)
    requires forall s :: s in slots ==> (s.text in a <==> s.text in b)
    ensures Restrict(slots, a) == Restrict(slots, b)
  {
    KeepAgree(slots, (s: Slot) => s.text in a, (s: Slot) => s.text in b);
  }

  lemma RestrictAppend(a: seq<Slot>, b: Slot, texts: set<JsString>)
    ensures Restrict(a + [b], texts) == Restrict(a, texts) + (if b.text in texts then [b] else [])
  {
    KeepAppend(a, [b], (s: Slot) => s.text in texts);
    KeepOne(b, (s: Slot) => s.text in texts);
  }

  lemma RemoveRestrict(slots: seq<Slot>, texts: set<JsString>, text: JsString)
    ensures Remove(Restrict(slots, texts), text) == Restrict(Remove(slots, text), texts)
  {
    KeepKeep(slots, (s: Slot) => s.text in texts, (s: Slot) => s.text != text);
  }

  lemma TextsOfAppend(a: seq<Slot>, b: Slot)
    ensures Texts(a + [b]) == Texts(a) + {b.text}
  {
    var c := a + [b];
    forall t | t in Texts(a) + {b.text} ensures t in Texts(c) {
      if t in Texts(a) {
        var i :| 0 <= i < |a| && a[i].text == t;
        assert c[i].text == t;
      } else {
        assert c[|a|].text == t;
      }
    }
  }

  lemma TextsOfRemove(slots: seq<Slot>, text: JsString)
    ensures Texts(Remove(slots, text)) == Texts(slots) - {text}
  {
    var r := Remove(slots, text);
    forall t | t in Texts(r) ensures t in Texts(slots) - {text} {
      var i :| 0 <= i < |r| && r[i].text == t;
      assert r[i] in r;
      InTexts(slots, r[i]);
    }
    forall t | t in Texts(slots) - {text} ensures t in Texts(r) {
      var i :| 0 <= i < |slots| && slots[i].text == t;
      assert slots[i] in r;
      InTexts(r, slots[i]);
    }
  }

  /** Moving one slot to the back of both, or of the larger alone, keeps inclusion. */
  lemma RefreshIncluded(small: seq<Slot>, large: seq<Slot>, slack: nat, slot: Slot, both: bool)
    requires Included(small, large, slack)
    requires !both ==> slot.text !in Texts(small) && slot in large
    ensures var large' := Remove(large, slot.text) + [slot];
            Included(if both then Remove(small, slot.text) + [slot] else small, large', slack)
  {
    var texts := Texts(small);
    var rest := Remove(large, slot.text);
    AppendFresh(large, slot);
    RemoveRestrict(large, texts, slot.text);
    TextsOfRemove(small, slot.text);
    TextsOfAppend(Remove(small, slot.text), slot);
    RemoveFound(large, slot.text);
    KeepDistinct(large, (s: Slot) => s.text in texts);
    RemoveFound(small, slot.text);
    if both {
      var texts' := texts + {slot.text};
      RestrictAppend(rest, slot, texts');
      RestrictAgree(rest, texts', texts);
      assert Texts(Remove(small, slot.text) + [slot]) == texts';
      if slot.text in texts { InclusionTexts(small, large, slack, slot.text); }
    } else {
      RestrictAppend(rest, slot, texts);
      KeepAll(small, (s: Slot) => s.text != slot.text) by {
        forall s | s in small ensures s.text != slot.text { InTexts(small, s); }
      }
      InTexts(large, slot);
    }
  }

  lemma InclusionTexts(small: seq<Slot>, large: seq<Slot>, slack: nat, text: JsString)
    requires Included(small, large, slack) && text in Texts(small)
    ensures text in Texts(large) && Find(small, text) == Find(large, text)
  {
    var found := Find(small, text).value;
    assert found in Restrict(large, Texts(small));
    InTexts(large, found);
    SlotOfText(large, found, Find(large, text).value);
  }

  lemma DropFromSmall(small: seq<Slot>, large: seq<Slot>)
    requires Distinct(large) && small != [] && small == Restrict(large, Texts(small))
    ensures small[1..] == Restrict(large, Texts(small[1..]))
  {
    var texts := Texts(small);
    KeepDistinct(large, (s: Slot) => s.text in texts);
    TextsOfCons(small);
    forall s | s in small[1..] ensures s.text != small[0].text {
      var i :| 0 <= i < |small[1..]| && small[1..][i] == s;
      assert small[i + 1] == s;
    }
    var first := small[0];
    Head(small);
    KeepAppend([first], small[1..], (s: Slot) => s.text != first.text);
    KeepOne(first, (s: Slot) => s.text != first.text);
    KeepAll(small[1..], (s: Slot) => s.text != first.text);
    RemoveRestrict(large, texts, first.text);
    NoTextInTail(small);
    KeepKeep(large, (s: Slot) => s.text in texts, (s: Slot) => s.text != first.text);
    KeepBoth(large, texts, first.text);
  }

  lemma {:induction false} KeepBoth(slots: seq<Slot>, texts: set<JsString>, text: JsString)
    ensures Remove(Restrict(slots, texts), text) == Restrict(slots, texts - {text})
  {
    if slots != [] {
      var x := slots[0];
      KeepBoth(slots[1..], texts, text);
      KeepAppend(if x.text in texts then [x] else [], Restrict(slots[1..], texts), (s: Slot) => s.text != text);
      KeepOne(x, (s: Slot) => s.text != text);
    }
  }

  /** When the larger cache evicts, the smaller one is full and evicts too. */
  lemma EvictIncluded(small: seq<Slot>, large: seq<Slot>, less: nat, more: nat)
    requires less <= more && |small| <= less + 1 && |large| <= more + 1
    requires Included(small, large, more - less)
    ensures Included(Evict(small, less), Evict(large, more), more - less)
  {
    if |small| > less {
      DropFromSmall(small, large);
      assert Evict(small, less) == small[1..];
      if |large| > more {
        assert Evict(large, more) == large[1..];
        var texts := Texts(small[1..]);
        KeepDistinct(large, (s: Slot) => s.text in Texts(small));
        NoTextInTail(small);
        if large[0].text in Texts(small) {
          assert Restrict(large, Texts(small))[0] == large[0];
        }
        assert large[0].text !in texts;
      }
    }
  }

  lemma {:induction false} PurgeShrinks(large: seq<Slot>, texts: set<JsString>, selector: Selector)
    ensures |Purge(Restrict(large, texts), selector)| + |large| >= |Purge(large, selector)| + |Restrict(large, texts)|
  {
    if large != [] {
      PurgeShrinks(large[1..], texts, selector);
      var x := large[0];
      KeepAppend(if x.text in texts then [x] else [], Restrict(large[1..], texts), (s: Slot) => !Matches(selector, s.key));
      KeepOne(x, (s: Slot) => !Matches(selector, s.key));
    }
  }

  lemma PurgeIncluded(small: seq<Slot>, large: seq<Slot>, slack: nat, selector: Selector)
    requires Included(small, large, slack)
    ensures Included(Purge(small, selector), Purge(large, selector), slack)
  {
    var texts := Texts(small);
    KeepDistinct(large, (s: Slot) => !Matches(selector, s.key));
    KeepKeep(large, (s: Slot) => s.text in texts, (s: Slot) => !Matches(selector, s.key));
    PurgeShrinks(large, texts, selector);
    var p := Purge(large, selector);
    forall s | s in p ensures s.text in texts <==> s.text in Texts(Purge(small, selector)) {
      if s.text in texts {
        assert s in Restrict(large, texts);
        InTexts(Purge(small, selector), s);
      }
      if s.text in Texts(Purge(small, selector)) {
        var i :| 0 <= i < |Purge(small, selector)| && Purge(small, selector)[i].text == s.text;
        assert Purge(small, selector)[i] in Purge(small, selector);
        InTexts(small, Purge(small, selector)[i]);
      }
    }
    RestrictAgree(p, texts, Texts(Purge(small, selector)));
  }

  lemma StepIncluded(small: seq<Slot>, large: seq<Slot>, less: nat, more: nat, op: Op)
    requires less <= more && |small| <= less && |large| <= more
    requires Included(small, large, more - less)
    ensures Included(Step(small, less, op), Step(large, more, op), more - less)
  {
    var slack := more - less;
    match op
    case Get(text) =>
      if text in Texts(small) {
        InclusionTexts(small, large, slack, text);
        RefreshIncluded(small, large, slack, Find(small, text).value, true);
      } else if text in Texts(large) {
        RefreshIncluded(small, large, slack, Find(large, text).value, false);
      }
    case Set(slot) =>
      RefreshIncluded(small, large, slack, slot, true);
      EvictIncluded(Remove(small, slot.text) + [slot], Remove(large, slot.text) + [slot], less, more);
    case Invalidate(selector) => PurgeIncluded(small, large, slack, selector);
  }

  /** The same operations at a larger capacity retain every entry the smaller capacity retains, in the same order. */
  lemma {:induction false} Inclusion(less: nat, more: nat, ops: seq<Op>, n: nat)
    requires less <= more && n <= |ops|
    ensures Included(Run(less, ops, n), Run(more, ops, n), more - less)
    ensures forall s :: s in Run(less, ops, n) ==> s in Run(more, ops, n)
  {
    if n == 0 {
      assert Restrict([], Texts([])) == [];
    } else {
      Inclusion(less, more, ops, n - 1);
      RunBounded(less, ops, n - 1);
      RunBounded(more, ops, n - 1);
      StepIncluded(Run(less, ops, n - 1), Run(more, ops, n - 1), less, more, ops[n - 1]);
    }
  }
}
