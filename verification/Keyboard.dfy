/**
 Keyboard resolution: from a wanted keysym to the key and modifiers that type it.

 A modifier mask is the set of its bit positions. The search is proved against a declarative
 reading of key-event interpretation: the group a key uses, the first type entry the held
 modifiers match, and the symbol at that group and level.
 */
module Keyboard {
  import opened Prelude
  import Bits

  type Mask = set<nat>

  datatype TypeEntry = TypeEntry(active: bool, mask: Mask, level: nat)
  datatype KeyType = KeyType(mods: Mask, levels: nat, entries: seq<TypeEntry>)
  datatype KeySyms = KeySyms(groupInfo: nat, width: nat, kinds: seq<nat>, syms: seq<nat>)
  datatype ModifierKey = ModifierKey(keycode: nat, mods: Mask)
  datatype XkbState = XkbState(
    mods: Mask, base: Mask, latched: Mask, locked: Mask, baseGroup: int, latchedGroup: int, group: nat)

  datatype KeyboardMap = KeyboardMap(
    minimum: nat,
    types: seq<KeyType>,
    symbols: seq<KeySyms>,
    modifierMap: seq<ModifierKey>,
    state: XkbState)

  datatype Modifier = Control | Alt | Shift | Super

  datatype KeyStroke = KeyStroke(keycode: nat, modifiers: seq<nat>)

  datatype Error = ModifierActive | ModifierUnavailable | ModifiersShareBit | BadMask | SymbolUnavailable
  datatype Resolved = Stroke(stroke: KeyStroke) | Refused(error: Error)

  const CONTROL: set<nat> := {0xffe3, 0xffe4}
  const ALT: set<nat> := {0xffe9, 0xffea}
  const SHIFT: set<nat> := {0xffe1, 0xffe2}
  const SUPER: set<nat> := {0xffeb, 0xffec}
  /** Shift_L, Shift_R, ISO_Level3_Shift, ISO_Level5_Shift. */
  const MOMENTARY: set<nat> := {0xffe1, 0xffe2, 0xfe03, 0xfe11}
  /** Caps_Lock, Shift_Lock, Num_Lock. */
  const LOCKS: set<nat> := {0xffe5, 0xffe6, 0xff7f}
  const MAX_MOMENTARY: nat := 8

  /** The mask fits the eight real modifiers. */
  predicate Real(mask: Mask) {
    forall b :: b in mask ==> b < 8
  }

  // ----- what pressing keys means -----

  /** The group a key uses for an effective group, as the server resolves it. */
  function ServerGroup(groupInfo: nat, effective: nat): Option<nat> {
    var count := groupInfo % 16;
    if count == 0 then None
    else if effective < count then Some(effective)
    else
      match (groupInfo / 64) % 4
      case 1 => Some(count - 1)
      case 2 => Some(if (groupInfo / 16) % 4 < count then (groupInfo / 16) % 4 else 0)
      case _ => Some(effective % count)
  }

  predicate EntryMatches(t: KeyType, mods: Mask, i: nat)
    requires i < |t.entries|
  {
    t.entries[i].active && t.entries[i].mask == mods * t.mods
  }

  /** The level is that of the first active entry equal to the relevant modifiers, else the base level. */
  ghost predicate IsLevel(t: KeyType, mods: Mask, level: nat) {
    || (exists i :: 0 <= i < |t.entries| && EntryMatches(t, mods, i) && level == t.entries[i].level
                    && forall j :: 0 <= j < i ==> !EntryMatches(t, mods, j))
    || (level == 0 && forall i :: 0 <= i < |t.entries| ==> !EntryMatches(t, mods, i))
  }

  /** With these modifiers in effect, the key in this row yields the symbol. */
  ghost predicate Selects(map_: KeyboardMap, row: nat, mods: Mask, symbol: nat)
    requires row < |map_.symbols|
  {
    var key := map_.symbols[row];
    exists g, level :: LevelSelects(map_, key, g, level, mods, symbol)
  }

  ghost predicate LevelSelects(map_: KeyboardMap, key: KeySyms, g: nat, level: nat, mods: Mask, symbol: nat) {
    && ServerGroup(key.groupInfo, map_.state.group) == Some(g)
    && g < |key.kinds| && key.kinds[g] < |map_.types|
    && (g + 1) * key.width <= |key.syms|
    && level < key.width && level < map_.types[key.kinds[g]].levels
    && IsLevel(map_.types[key.kinds[g]], mods, level)
    && Row(key, g)[level] == symbol
  }

  /** The symbols of one group of a key. */
  function Row(key: KeySyms, g: nat): (r: seq<nat>)
    requires (g + 1) * key.width <= |key.syms|
    ensures |r| == key.width
  {
    assert g * key.width <= (g + 1) * key.width == g * key.width + key.width;
    key.syms[g * key.width..g * key.width + key.width]
  }

  /** The modifier bits that holding some keys puts in effect. */
  ghost function HeldBits(map_: KeyboardMap, keycodes: seq<nat>): Mask {
    set e, b | e in map_.modifierMap && e.keycode in keycodes && b in e.mods :: b
  }

  ghost predicate OneEntryPerKeycode(map_: KeyboardMap) {
    forall i, j :: 0 <= i < j < |map_.modifierMap| ==> map_.modifierMap[i].keycode != map_.modifierMap[j].keycode
  }

  // ----- the pure helpers -----

  /** `normalized_group`. */
  function NormalizedGroup(groupInfo: nat, effective: nat): (r: Option<nat>)
    ensures r.Some? ==> ServerGroup(groupInfo, effective) == r && r.value < groupInfo % 16
  {
    var count := groupInfo % 16;
    if count == 0 then None
    else if effective < count then Some(effective)
    else
      match (groupInfo / 64) % 4
      case 0 => Some(effective % count)
      case 1 => Some(count - 1)
      case 2 => if (groupInfo / 16) % 4 < count then Some((groupInfo / 16) % 4) else None
      case _ => None
  }

  /** The effective group is in the key's range, or its range action is to wrap, to clamp or to redirect to a group it has. */
  predicate RangeOk(groupInfo: nat, effective: nat) {
    || groupInfo % 16 == 0 || effective < groupInfo % 16
    || (groupInfo / 64) % 4 <= 1
    || ((groupInfo / 64) % 4 == 2 && (groupInfo / 16) % 4 < groupInfo % 16)
  }

  /**
   The keys the search cannot address although the server can: an effective group outside the
   key's range, with a redirect that is itself out of range or an undefined range action.
   */
  lemma GroupRefusedExactly(groupInfo: nat, effective: nat)
    ensures NormalizedGroup(groupInfo, effective) == ServerGroup(groupInfo, effective) <==> RangeOk(groupInfo, effective)
  {
  }

  function LevelFrom(t: KeyType, mods: Mask, from: nat): nat
    requires from <= |t.entries|
    decreases |t.entries| - from
  {
    if from == |t.entries| then 0
    else if EntryMatches(t, mods, from) then t.entries[from].level
    else LevelFrom(t, mods, from + 1)
  }

  /** `level_for_modifiers`. */
  function LevelFor(t: KeyType, mods: Mask): nat {
    LevelFrom(t, mods, 0)
  }

  lemma {:induction false} LevelFromIsFirst(t: KeyType, mods: Mask, from: nat)
    requires from <= |t.entries| && forall j :: 0 <= j < from ==> !EntryMatches(t, mods, j)
    ensures IsLevel(t, mods, LevelFrom(t, mods, from))
    decreases |t.entries| - from
  {
    if from < |t.entries| && !EntryMatches(t, mods, from) {
      LevelFromIsFirst(t, mods, from + 1);
    }
  }

  lemma LevelIsUnique(t: KeyType, mods: Mask, level: nat)
    ensures IsLevel(t, mods, level) <==> level == LevelFor(t, mods)
  {
    LevelFromIsFirst(t, mods, 0);
  }

  predicate KeyHas(map_: KeyboardMap, keycode: nat, symbols: set<nat>) {
    && map_.minimum <= keycode < map_.minimum + |map_.symbols|
    && exists s :: s in map_.symbols[keycode - map_.minimum].syms && s in symbols
  }

  function SymbolsOf(modifier: Modifier): set<nat> {
    match modifier
    case Control => CONTROL
    case Alt => ALT
    case Shift => SHIFT
    case Super => SUPER
  }

  /** Exactly one of the eight real modifiers. */
  predicate Single(mask: Mask) {
    exists b :: 0 <= b < 8 && mask == {b}
  }

  /** The population count of the low bits of a mask. */
  function Ones(mask: Mask, bits: nat): nat {
    if bits == 0 then 0 else Ones(mask, bits - 1) + (if bits - 1 in mask then 1 else 0)
  }

  function FindKey(map_: KeyboardMap, entries: seq<ModifierKey>, symbols: set<nat>): (r: Option<ModifierKey>)
    ensures r.Some? ==> r.value in entries && Single(r.value.mods) && KeyHas(map_, r.value.keycode, symbols)
    ensures r.None? ==> forall e :: e in entries ==> !(Single(e.mods) && KeyHas(map_, e.keycode, symbols))
  {
    if entries == [] then None
    else if Single(entries[0].mods) && KeyHas(map_, entries[0].keycode, symbols) then Some(entries[0])
    else FindKey(map_, entries[1..], symbols)
  }

  /** `modifier_key`: the first single-bit modifier key that carries the modifier's symbol. */
  function KeyFor(map_: KeyboardMap, modifier: Modifier): (r: Option<ModifierKey>)
    ensures r.Some? ==> r.value in map_.modifierMap && Single(r.value.mods)
  {
    FindKey(map_, map_.modifierMap, SymbolsOf(modifier))
  }

  // ----- subsets of the momentary keys -----

  function Chosen(keys: seq<ModifierKey>, pick: seq<bool>): seq<nat>
    requires |pick| == |keys|
  {
    if keys == [] then []
    else
      var n := |keys| - 1;
      Chosen(keys[..n], pick[..n]) + (if pick[n] then [keys[n].keycode] else [])
  }

  function ChosenBits(keys: seq<ModifierKey>, pick: seq<bool>): Mask
    requires |pick| == |keys|
  {
    if keys == [] then {}
    else
      var n := |keys| - 1;
      ChosenBits(keys[..n], pick[..n]) + (if pick[n] then keys[n].mods else {})
  }

  function BitsOf(c: nat, n: nat): (pick: seq<bool>)
    ensures |pick| == n
  {
    seq(n, i requires 0 <= i < n => Bits.Bit(c, i))
  }

  function Code(pick: seq<bool>): (c: nat)
    ensures c < Bits.Power(|pick|)
  {
    if pick == [] then 0 else (if pick[0] then 1 else 0) + 2 * Code(pick[1..])
  }

  lemma {:induction false} CodeBits(pick: seq<bool>, i: nat)
    requires i < |pick|
    ensures Bits.Bit(Code(pick), i) == pick[i]
  {
    if i > 0 {
      CodeBits(pick[1..], i - 1);
    }
  }

  /** Counting through the combinations visits every subset. */
  lemma EverySubset(pick: seq<bool>)
    ensures Code(pick) < Bits.Power(|pick|) && BitsOf(Code(pick), |pick|) == pick
  {
    forall i | 0 <= i < |pick| ensures BitsOf(Code(pick), |pick|)[i] == pick[i] {
      CodeBits(pick, i);
    }
  }

  predicate Reaches(t: KeyType, level: nat, current: Mask, keys: seq<ModifierKey>, pick: seq<bool>) {
    |pick| == |keys| && LevelFor(t, current + ChosenBits(keys, pick)) == level
  }

  /** The search order among subsets: fewer keys first, then fewer bits in effect. */
  predicate NoWorse(current: Mask, keys: seq<ModifierKey>, p: seq<bool>, q: seq<bool>)
    requires |p| == |keys| == |q|
  {
    || |Chosen(keys, p)| < |Chosen(keys, q)|
    || (|Chosen(keys, p)| == |Chosen(keys, q)|
        && Ones(current + ChosenBits(keys, p), 8) <= Ones(current + ChosenBits(keys, q), 8))
  }

  /** One combination of `modifiers_for_level`: the keys whose bits are set, and what they put in effect. */
  method Combine(c: nat, current: Mask, keys: seq<ModifierKey>) returns (effective: Mask, keycodes: seq<nat>)
    ensures effective == current + ChosenBits(keys, BitsOf(c, |keys|))
    ensures keycodes == Chosen(keys, BitsOf(c, |keys|))
  {
    effective, keycodes := current, [];
    ghost var pick := BitsOf(c, |keys|);
    for i := 0 to |keys|
      invariant effective == current + ChosenBits(keys[..i], pick[..i])
      invariant keycodes == Chosen(keys[..i], pick[..i])
    {
      assert keys[..i + 1][..i] == keys[..i] && pick[..i + 1][..i] == pick[..i];
      if Bits.Bit(c, i) {
        effective := effective + keys[i].mods;
        keycodes := keycodes + [keys[i].keycode];
      }
    }
    assert keys[..|keys|] == keys && pick[..|keys|] == pick;
  }

  /** The best of the first `c` combinations, if any reaches the level. */
  ghost predicate BestOf(t: KeyType, level: nat, current: Mask, keys: seq<ModifierKey>, c: nat, best: seq<bool>) {
    && Reaches(t, level, current, keys, best)
    && forall d :: 0 <= d < c ==> NotBetter(t, level, current, keys, d, best)
  }

  ghost predicate NotBetter(t: KeyType, level: nat, current: Mask, keys: seq<ModifierKey>, d: nat, best: seq<bool>)
    requires |best| == |keys|
  {
    Reaches(t, level, current, keys, BitsOf(d, |keys|)) ==> NoWorse(current, keys, best, BitsOf(d, |keys|))
  }

  ghost predicate NoneOf(t: KeyType, level: nat, current: Mask, keys: seq<ModifierKey>, c: nat) {
    forall d :: 0 <= d < c ==> !Reaches(t, level, current, keys, BitsOf(d, |keys|))
  }

  lemma Replaces(t: KeyType, level: nat, current: Mask, keys: seq<ModifierKey>, c: nat, best: seq<bool>, pick: seq<bool>)
    requires BestOf(t, level, current, keys, c, best)
    requires pick == BitsOf(c, |keys|) && Reaches(t, level, current, keys, pick) && !NoWorse(current, keys, best, pick)
    ensures BestOf(t, level, current, keys, c + 1, pick)
  {
    forall d | 0 <= d < c + 1 ensures NotBetter(t, level, current, keys, d, pick) {
      if d < c { assert NotBetter(t, level, current, keys, d, best); }
    }
  }

  lemma OverAllSubsets(t: KeyType, level: nat, current: Mask, keys: seq<ModifierKey>, best: seq<bool>)
    ensures BestOf(t, level, current, keys, Bits.Power(|keys|), best) ==>
              forall p | Reaches(t, level, current, keys, p) :: NoWorse(current, keys, best, p)
    ensures NoneOf(t, level, current, keys, Bits.Power(|keys|)) ==>
              forall p | |p| == |keys| :: !Reaches(t, level, current, keys, p)
  {
    forall p: seq<bool> | |p| == |keys| && Reaches(t, level, current, keys, p)
      ensures BestOf(t, level, current, keys, Bits.Power(|keys|), best) ==> NoWorse(current, keys, best, p)
      ensures !NoneOf(t, level, current, keys, Bits.Power(|keys|))
    {
      EverySubset(p);
      if BestOf(t, level, current, keys, Bits.Power(|keys|), best) {
        assert NotBetter(t, level, current, keys, Code(p), best);
      }
    }
  }

  /** `modifiers_for_level`: a best subset reaching the level, or none when no subset reaches it. */
  method ModifiersForLevel(t: KeyType, level: nat, current: Mask, keys: seq<ModifierKey>)
    returns (r: Option<seq<nat>>, ghost best: seq<bool>)
    ensures r.Some? ==> Reaches(t, level, current, keys, best) && r.value == Chosen(keys, best)
    ensures r.Some? ==> forall p | Reaches(t, level, current, keys, p) :: NoWorse(current, keys, best, p)
    ensures r.None? ==> forall p | |p| == |keys| :: !Reaches(t, level, current, keys, p)
  {
    r, best := None, [];
    var bestBits := 0;
    var combinations := Bits.Power(|keys|);
    for c := 0 to combinations
      invariant r.Some? ==> BestOf(t, level, current, keys, c, best)
      invariant r.Some? ==> r.value == Chosen(keys, best) && bestBits == Ones(current + ChosenBits(keys, best), 8)
      invariant r.None? ==> NoneOf(t, level, current, keys, c)
    {
      var effective, keycodes := Combine(c, current, keys);
      ghost var pick := BitsOf(c, |keys|);
      if LevelFor(t, effective) == level {
        assert Reaches(t, level, current, keys, pick);
        if r.None? || |keycodes| < |r.value| || (|keycodes| == |r.value| && Ones(effective, 8) < bestBits) {
          if r.Some? { Replaces(t, level, current, keys, c, best, pick); }
          r, best, bestBits := Some(keycodes), pick, Ones(effective, 8);
        }
      }
    }
    OverAllSubsets(t, level, current, keys, best);
  }

  // ----- the momentary modifier keys -----

  predicate Momentary(map_: KeyboardMap, e: ModifierKey) {
    Single(e.mods) && KeyHas(map_, e.keycode, MOMENTARY)
  }

  predicate HasMods(keys: seq<ModifierKey>, mods: Mask) {
    exists k :: k in keys && k.mods == mods
  }

  /** The first momentary key of each modifier bit, in map order, capped as the search is. */
  function MomentaryOf(map_: KeyboardMap, entries: seq<ModifierKey>): seq<ModifierKey> {
    if entries == [] then []
    else
      var n := |entries| - 1;
      var keys := MomentaryOf(map_, entries[..n]);
      if !Momentary(map_, entries[n]) || HasMods(keys, entries[n].mods) || |keys| == MAX_MOMENTARY
      then keys else keys + [entries[n]]
  }

  ghost predicate DistinctMods(keys: seq<ModifierKey>) {
    forall i, j :: 0 <= i < j < |keys| ==> keys[i].mods != keys[j].mods
  }

  lemma {:induction false} MomentaryShape(map_: KeyboardMap, entries: seq<ModifierKey>)
    ensures var keys := MomentaryOf(map_, entries);
            && |keys| <= MAX_MOMENTARY && DistinctMods(keys)
            && forall k :: k in keys ==> k in entries && Momentary(map_, k)
  {
    if entries != [] {
      MomentaryShape(map_, entries[..|entries| - 1]);
    }
  }

  lemma {:induction false} MomentaryFull(map_: KeyboardMap, entries: seq<ModifierKey>, i: nat)
    requires i <= |entries| && |MomentaryOf(map_, entries[..i])| == MAX_MOMENTARY
    ensures MomentaryOf(map_, entries) == MomentaryOf(map_, entries[..i])
  {
    if i < |entries| {
      var n := |entries| - 1;
      assert entries[..n][..i] == entries[..i];
      MomentaryFull(map_, entries[..n], i);
    } else {
      assert entries[..i] == entries;
    }
  }

  function BitSet(keys: seq<ModifierKey>): set<nat> {
    if keys == [] then {} else BitSet(keys[..|keys| - 1]) + keys[|keys| - 1].mods
  }

  lemma {:induction false} BitSetMember(keys: seq<ModifierKey>, b: nat)
    requires forall k :: k in keys ==> Single(k.mods)
    ensures b in BitSet(keys) <==> HasMods(keys, {b})
    ensures b in BitSet(keys) ==> b < 8
  {
    if keys != [] {
      var n := |keys| - 1;
      BitSetMember(keys[..n], b);
      assert keys == keys[..n] + [keys[n]];
      assert keys[n] in keys;
      assert b in keys[n].mods <==> keys[n].mods == {b};
      if HasMods(keys[..n], {b}) {
        var k :| k in keys[..n] && k.mods == {b};
        assert k in keys;
      }
    }
  }

  lemma {:induction false} BitSetSize(keys: seq<ModifierKey>)
    requires DistinctMods(keys) && forall k :: k in keys ==> Single(k.mods)
    ensures |BitSet(keys)| == |keys|
  {
    if keys != [] {
      var n := |keys| - 1;
      BitSetSize(keys[..n]);
      assert keys[n] in keys;
      var b :| 0 <= b < 8 && keys[n].mods == {b};
      BitSetMember(keys[..n], b);
      assert !HasMods(keys[..n], {b});
    }
  }

  /** Eight distinct single bits are all of them. */
  lemma FullCovers(keys: seq<ModifierKey>, mods: Mask)
    requires DistinctMods(keys) && (forall k :: k in keys ==> Single(k.mods)) && |keys| == 8 && Single(mods)
    ensures HasMods(keys, mods)
  {
    var b :| 0 <= b < 8 && mods == {b};
    BitSetSize(keys);
    forall c | c in BitSet(keys) ensures c < 8 { BitSetMember(keys, c); }
    FullSet(BitSet(keys), 8);
    BitSetMember(keys, b);
  }

  lemma {:induction false} FullSet(s: set<nat>, n: nat)
    requires |s| == n && forall b :: b in s ==> b < n
    ensures forall b :: 0 <= b < n ==> b in s
  {
    if n > 0 {
      if n - 1 in s {
        FullSet(s - {n - 1}, n - 1);
      } else {
        SmallSet(s, n - 1);
      }
    }
  }

  lemma {:induction false} SmallSet(s: set<nat>, n: nat)
    requires forall b :: b in s ==> b < n
    ensures |s| <= n
  {
    if n > 0 {
      SmallSet(s - {n - 1}, n - 1);
      assert |s| <= |s - {n - 1}| + 1;
    }
  }

  /** The cap never costs anything: every modifier bit with a momentary key is represented. */
  lemma {:induction false} MomentaryComplete(map_: KeyboardMap, entries: seq<ModifierKey>, e: ModifierKey)
    requires e in entries && Momentary(map_, e)
    ensures HasMods(MomentaryOf(map_, entries), e.mods)
  {
    var n := |entries| - 1;
    var keys := MomentaryOf(map_, entries[..n]);
    MomentaryShape(map_, entries[..n]);
    assert entries == entries[..n] + [entries[n]];
    if e in entries[..n] {
      MomentaryComplete(map_, entries[..n], e);
      var k :| k in keys && k.mods == e.mods;
      assert k in MomentaryOf(map_, entries);
    } else if |keys| == MAX_MOMENTARY {
      FullCovers(keys, e.mods);
    } else if !HasMods(keys, e.mods) {
      assert e in MomentaryOf(map_, entries);
    }
  }

  /** `momentary_modifier_keys`. */
  method MomentaryKeys(map_: KeyboardMap) returns (keys: seq<ModifierKey>)
    ensures keys == MomentaryOf(map_, map_.modifierMap)
  {
    keys := [];
    var entries := map_.modifierMap;
    var i := 0;
    while i < |entries|
      invariant 0 <= i <= |entries|
      invariant keys == MomentaryOf(map_, entries[..i])
    {
      assert entries[..i + 1][..i] == entries[..i];
      if Momentary(map_, entries[i]) && !HasMods(keys, entries[i].mods) {
        if |keys| == MAX_MOMENTARY {
          MomentaryFull(map_, entries, i);
          return;
        }
        keys := keys + [entries[i]];
      }
      i := i + 1;
    }
    assert entries[..i] == entries;
  }

  // ----- locked and requested modifiers -----

  ghost function SafeBits(map_: KeyboardMap): Mask {
    set e, b | e in map_.modifierMap && KeyHas(map_, e.keycode, LOCKS) && b in e.mods && b in map_.state.locked :: b
  }

  ghost predicate MasksReal(map_: KeyboardMap) {
    Real(map_.state.locked) && forall e :: e in map_.modifierMap ==> Real(e.mods)
  }

  /** `safe_locked_modifiers`: the locked bits that some lock key accounts for. */
  method SafeLocked(map_: KeyboardMap) returns (r: Option<Mask>)
    ensures r.Some? <==> MasksReal(map_)
    ensures r.Some? ==> r.value == SafeBits(map_)
  {
    if !Real(map_.state.locked) {
      return None;
    }
    var safe: Mask := {};
    var entries := map_.modifierMap;
    for i := 0 to |entries|
      invariant forall j :: 0 <= j < i ==> Real(entries[j].mods)
      invariant forall b :: b in safe <==>
                  exists j :: 0 <= j < i && KeyHas(map_, entries[j].keycode, LOCKS) && b in entries[j].mods
    {
      if !Real(entries[i].mods) {
        assert entries[i] in entries;
        return None;
      }
      if KeyHas(map_, entries[i].keycode, LOCKS) {
        safe := safe + entries[i].mods;
      }
    }
    r := Some(map_.state.locked * safe);
    forall b | b in SafeBits(map_) ensures b in r.value {
      var e :| e in entries && KeyHas(map_, e.keycode, LOCKS) && b in e.mods;
      var j :| 0 <= j < |entries| && entries[j] == e;
    }
  }

  datatype Request = Held(keys: seq<nat>, bits: Mask) | Denied(error: Error)

  /** The keys held for the requested modifiers, over a prefix of them. */
  function Requested(map_: KeyboardMap, requested: seq<Modifier>): Request {
    if requested == [] then Held([], {})
    else
      var n := |requested| - 1;
      match Requested(map_, requested[..n])
      case Denied(error) => Denied(error)
      case Held(keys, bits) =>
        match KeyFor(map_, requested[n])
        case None => Denied(ModifierUnavailable)
        case Some(key) => if bits * key.mods != {} then Denied(ModifiersShareBit)
                          else Held(keys + [key.keycode], bits + key.mods)
  }

  lemma {:induction false} RequestedStops(map_: KeyboardMap, requested: seq<Modifier>, i: nat)
    requires i <= |requested| && Requested(map_, requested[..i]).Denied?
    ensures Requested(map_, requested) == Requested(map_, requested[..i])
  {
    if i < |requested| {
      var n := |requested| - 1;
      assert requested[..n][..i] == requested[..i];
      RequestedStops(map_, requested[..n], i);
    } else {
      assert requested[..i] == requested;
    }
  }

  /** The loop over the requested modifiers in `resolve_with_modifiers`. */
  method HoldRequested(map_: KeyboardMap, requested: seq<Modifier>) returns (r: Request)
    ensures r == Requested(map_, requested)
  {
    var keys: seq<nat>, bits: Mask := [], {};
    var i := 0;
    while i < |requested|
      invariant 0 <= i <= |requested|
      invariant Requested(map_, requested[..i]) == Held(keys, bits)
    {
      assert requested[..i + 1][..i] == requested[..i];
      var key := KeyFor(map_, requested[i]);
      if key.None? {
        RequestedStops(map_, requested, i + 1);
        return Denied(ModifierUnavailable);
      }
      if bits * key.value.mods != {} {
        RequestedStops(map_, requested, i + 1);
        return Denied(ModifiersShareBit);
      }
      keys, bits := keys + [key.value.keycode], bits + key.value.mods;
      i := i + 1;
    }
    assert requested[..i] == requested;
    r := Held(keys, bits);
  }

  lemma HeldOne(map_: KeyboardMap, key: ModifierKey)
    requires OneEntryPerKeycode(map_) && key in map_.modifierMap
    ensures HeldBits(map_, [key.keycode]) == key.mods
  {
    forall e | e in map_.modifierMap && e.keycode in [key.keycode] ensures e == key {
      var i :| 0 <= i < |map_.modifierMap| && map_.modifierMap[i] == key;
      var j :| 0 <= j < |map_.modifierMap| && map_.modifierMap[j] == e;
    }
  }

  lemma HeldConcat(map_: KeyboardMap, left: seq<nat>, right: seq<nat>)
    ensures HeldBits(map_, left + right) == HeldBits(map_, left) + HeldBits(map_, right)
  {
  }

  lemma {:induction false} RequestedHolds(map_: KeyboardMap, requested: seq<Modifier>)
    requires OneEntryPerKeycode(map_)
    ensures var r := Requested(map_, requested);
            r.Held? ==> HeldBits(map_, r.keys) == r.bits && |r.keys| == |requested|
  {
    if requested != [] {
      var n := |requested| - 1;
      RequestedHolds(map_, requested[..n]);
      var r, key := Requested(map_, requested[..n]), KeyFor(map_, requested[n]);
      if r.Held? && key.Some? {
        HeldOne(map_, key.value);
        HeldConcat(map_, r.keys, [key.value.keycode]);
      }
    }
  }

  lemma {:induction false} ChosenHolds(map_: KeyboardMap, keys: seq<ModifierKey>, pick: seq<bool>)
    requires OneEntryPerKeycode(map_) && |pick| == |keys| && forall k :: k in keys ==> k in map_.modifierMap
    ensures HeldBits(map_, Chosen(keys, pick)) == ChosenBits(keys, pick)
  {
    if keys != [] {
      var n := |keys| - 1;
      assert keys[n] in keys;
      ChosenHolds(map_, keys[..n], pick[..n]);
      if pick[n] {
        HeldOne(map_, keys[n]);
        HeldConcat(map_, Chosen(keys[..n], pick[..n]), [keys[n].keycode]);
      } else {
        assert Chosen(keys, pick) == Chosen(keys[..n], pick[..n]);
      }
    }
  }

  /** The chosen keys after the requested ones, without repeating a key. */
  function Presses(held: seq<nat>, chosen: seq<nat>): seq<nat> {
    if chosen == [] then held
    else
      var n := |chosen| - 1;
      var presses := Presses(held, chosen[..n]);
      if chosen[n] in presses then presses else presses + [chosen[n]]
  }

  lemma {:induction false} PressesMembers(held: seq<nat>, chosen: seq<nat>)
    ensures forall k :: k in Presses(held, chosen) <==> k in held || k in chosen
    ensures |held| <= |Presses(held, chosen)| <= |held| + |chosen|
    ensures Presses(held, chosen)[..|held|] == held
  {
    if chosen != [] {
      var n := |chosen| - 1;
      PressesMembers(held, chosen[..n]);
      assert chosen == chosen[..n] + [chosen[n]];
    }
  }

  lemma PressesHold(map_: KeyboardMap, held: seq<nat>, chosen: seq<nat>)
    ensures HeldBits(map_, Presses(held, chosen)) == HeldBits(map_, held) + HeldBits(map_, chosen)
  {
    PressesMembers(held, chosen);
  }

  // ----- the search -----

  /** Everything the search over the keys depends on. */
  datatype Search = Search(
    map_: KeyboardMap, wanted: nat, held: seq<nat>, current: Mask, tolerated: Mask, keys: seq<ModifierKey>)

  /** The key type of an addressable key. */
  ghost predicate Addressable(x: Search, row: nat, g: nat) {
    && row < |x.map_.symbols| && x.map_.minimum + row <= 255
    && NormalizedGroup(x.map_.symbols[row].groupInfo, x.map_.state.group) == Some(g)
    && g < |x.map_.symbols[row].kinds| && x.map_.symbols[row].kinds[g] < |x.map_.types|
    && (g + 1) * x.map_.symbols[row].width <= |x.map_.symbols[row].syms|
  }

  /** No modifier in effect is foreign to the key's type, apart from tolerated ones. */
  ghost predicate Admissible(x: Search, row: nat) {
    exists g: nat :: Addressable(x, row, g) && Tolerates(x, x.map_.types[x.map_.symbols[row].kinds[g]])
  }

  predicate Tolerates(x: Search, t: KeyType) {
    Real(t.mods) && x.current <= t.mods + x.tolerated
  }

  /** An admissible key that yields the wanted symbol under some momentary modifiers. */
  ghost predicate Candidate(x: Search, row: nat, pick: seq<bool>) {
    && Admissible(x, row) && |pick| == |x.keys|
    && Selects(x.map_, row, x.current + ChosenBits(x.keys, pick), x.wanted)
  }

  ghost predicate Typed(x: Search, row: nat, pick: seq<bool>, stroke: KeyStroke) {
    && Candidate(x, row, pick)
    && stroke == KeyStroke(x.map_.minimum + row, Presses(x.held, Chosen(x.keys, pick)))
  }

  /** Within one group of one key: the symbol is selected exactly at its levels. */
  lemma SelectsAtLevel(x: Search, row: nat, g: nat, pick: seq<bool>)
    requires Addressable(x, row, g) && |pick| == |x.keys|
    ensures var key := x.map_.symbols[row];
            var t := x.map_.types[key.kinds[g]];
            var level := LevelFor(t, x.current + ChosenBits(x.keys, pick));
            Selects(x.map_, row, x.current + ChosenBits(x.keys, pick), x.wanted) <==>
              level < key.width && level < t.levels && Row(key, g)[level] == x.wanted
  {
    var key := x.map_.symbols[row];
    var t := x.map_.types[key.kinds[g]];
    var mods := x.current + ChosenBits(x.keys, pick);
    var level := LevelFor(t, mods);
    LevelIsUnique(t, mods, level);
    if level < key.width && level < t.levels && Row(key, g)[level] == x.wanted {
      assert LevelSelects(x.map_, key, g, level, mods, x.wanted);
    }
    if Selects(x.map_, row, mods, x.wanted) {
      var h, l :| LevelSelects(x.map_, key, h, l, mods, x.wanted);
      LevelIsUnique(t, mods, l);
    }
  }

  /** A subset that reaches a wanted symbol at one of the first levels. */
  ghost predicate ReachedBelow(x: Search, t: KeyType, symbols: seq<nat>, levels: nat, p: seq<bool>) {
    && |p| == |x.keys|
    && var level := LevelFor(t, x.current + ChosenBits(x.keys, p));
       level < levels && level < |symbols| && symbols[level] == x.wanted
  }

  ghost predicate CheapestBelow(
      x: Search, t: KeyType, symbols: seq<nat>, levels: nat, r: Option<seq<nat>>, best: seq<bool>)
  {
    match r
    case Some(presses) =>
      && ReachedBelow(x, t, symbols, levels, best) && presses == Presses(x.held, Chosen(x.keys, best))
      && forall p :: ReachedBelow(x, t, symbols, levels, p) ==> |presses| <= |x.held| + |Chosen(x.keys, p)|
    case None => forall p :: !ReachedBelow(x, t, symbols, levels, p)
  }

  /** One more level: either nothing new is reached there, or its best subset competes. */
  lemma NextLevel(
      x: Search, t: KeyType, symbols: seq<nat>, level: nat, next: nat, r: Option<seq<nat>>, best: seq<bool>,
      chosen: Option<seq<nat>>, pick: seq<bool>)
    requires CheapestBelow(x, t, symbols, level, r, best) && level < |symbols| && next == level + 1
    requires symbols[level] == x.wanted
    requires chosen.Some? ==> Reaches(t, level, x.current, x.keys, pick) && chosen.value == Chosen(x.keys, pick)
    requires chosen.Some? ==> forall p | Reaches(t, level, x.current, x.keys, p) :: NoWorse(x.current, x.keys, pick, p)
    requires chosen.None? ==> forall p | |p| == |x.keys| :: !Reaches(t, level, x.current, x.keys, p)
    ensures chosen.None? ==> CheapestBelow(x, t, symbols, next, r, best)
    ensures chosen.Some? ==>
              var presses := Presses(x.held, chosen.value);
              if r.None? || |presses| < |r.value|
              then CheapestBelow(x, t, symbols, next, Some(presses), pick)
              else CheapestBelow(x, t, symbols, next, r, best)
  {
    forall p | ReachedBelow(x, t, symbols, next, p) && !ReachedBelow(x, t, symbols, level, p)
      ensures chosen.Some? && |Presses(x.held, chosen.value)| <= |x.held| + |Chosen(x.keys, p)|
    {
      assert Reaches(t, level, x.current, x.keys, p);
      PressesMembers(x.held, chosen.value);
    }
  }

  lemma SkippedLevel(
      x: Search, t: KeyType, symbols: seq<nat>, level: nat, next: nat, r: Option<seq<nat>>, best: seq<bool>)
    requires CheapestBelow(x, t, symbols, level, r, best) && level < |symbols| && next == level + 1
    requires symbols[level] != x.wanted
    ensures CheapestBelow(x, t, symbols, next, r, best)
  {
    forall p | ReachedBelow(x, t, symbols, next, p) ensures ReachedBelow(x, t, symbols, level, p) {
    }
  }

  /** The levels of one key: the innermost iterator of `resolve_with_modifiers`. */
  method BestOverLevels(x: Search, t: KeyType, symbols: seq<nat>) returns (r: Option<seq<nat>>, ghost best: seq<bool>)
    ensures CheapestBelow(x, t, symbols, t.levels, r, best)
  {
    r, best := None, [];
    var levels := if |symbols| <= t.levels then |symbols| else t.levels;
    for level := 0 to levels
      invariant CheapestBelow(x, t, symbols, level, r, best)
    {
      if symbols[level] == x.wanted {
        var chosen, pick := ModifiersForLevel(t, level, x.current, x.keys);
        NextLevel(x, t, symbols, level, level + 1, r, best, chosen, pick);
        if chosen.Some? {
          var presses := Presses(x.held, chosen.value);
          if r.None? || |presses| < |r.value| {
            r, best := Some(presses), pick;
          }
        }
      } else {
        SkippedLevel(x, t, symbols, level, level + 1, r, best);
      }
    }
    assert forall p :: ReachedBelow(x, t, symbols, t.levels, p) <==> ReachedBelow(x, t, symbols, levels, p);
  }

  ghost predicate CheapestIn(x: Search, row: nat, r: Option<KeyStroke>, best: seq<bool>) {
    match r
    case Some(stroke) =>
      && Typed(x, row, best, stroke)
      && forall p :: Candidate(x, row, p) ==> |stroke.modifiers| <= |x.held| + |Chosen(x.keys, p)|
    case None => forall p :: !Candidate(x, row, p)
  }

  lemma RowIsItsLevels(x: Search, row: nat, g: nat, p: seq<bool>)
    requires Addressable(x, row, g) && Tolerates(x, x.map_.types[x.map_.symbols[row].kinds[g]])
    ensures var key := x.map_.symbols[row];
            var t := x.map_.types[key.kinds[g]];
            Candidate(x, row, p) <==> ReachedBelow(x, t, Row(key, g), t.levels, p)
  {
    assert Admissible(x, row);
    if |p| == |x.keys| { SelectsAtLevel(x, row, g, p); }
  }

  /** One key: unusable for one of the search's reasons, or its levels are searched. */
  method BestInRow(x: Search, row: nat) returns (r: Option<KeyStroke>, ghost best: seq<bool>)
    requires row < |x.map_.symbols|
    ensures CheapestIn(x, row, r, best)
  {
    r, best := None, [];
    var key := x.map_.symbols[row];
    var group := NormalizedGroup(key.groupInfo, x.map_.state.group);
    if x.map_.minimum + row > 255 || group.None? {
      return;
    }
    var g := group.value;
    if g >= |key.kinds| || key.kinds[g] >= |x.map_.types| {
      return;
    }
    var t := x.map_.types[key.kinds[g]];
    if !Tolerates(x, t) || (g + 1) * key.width > |key.syms| {
      return;
    }
    var presses;
    presses, best := BestOverLevels(x, t, Row(key, g));
    forall p ensures Candidate(x, row, p) <==> ReachedBelow(x, t, Row(key, g), t.levels, p) {
      RowIsItsLevels(x, row, g, p);
    }
    if presses.Some? {
      r := Some(KeyStroke(x.map_.minimum + row, presses.value));
    }
  }

  ghost predicate CheapestOf(x: Search, rows: nat, r: Option<KeyStroke>, row: nat, best: seq<bool>) {
    match r
    case Some(stroke) =>
      && Typed(x, row, best, stroke)
      && forall q: nat, p :: q < rows && Candidate(x, q, p) ==> |stroke.modifiers| <= |x.held| + |Chosen(x.keys, p)|
    case None => forall q: nat, p :: q < rows ==> !Candidate(x, q, p)
  }

  lemma NextRow(
      x: Search, i: nat, r: Option<KeyStroke>, row: nat, best: seq<bool>, s: Option<KeyStroke>, pick: seq<bool>)
    requires CheapestOf(x, i, r, row, best) && CheapestIn(x, i, s, pick)
    ensures if s.Some? && (r.None? || |s.value.modifiers| < |r.value.modifiers|)
            then CheapestOf(x, i + 1, s, i, pick)
            else CheapestOf(x, i + 1, r, row, best)
  {
    forall q: nat, p | q < i + 1 && Candidate(x, q, p)
      ensures q == i ==> s.Some? && |s.value.modifiers| <= |x.held| + |Chosen(x.keys, p)|
      ensures q < i ==> r.Some? && |r.value.modifiers| <= |x.held| + |Chosen(x.keys, p)|
    {
    }
  }

  /** The outer search over all keys. */
  method BestStroke(x: Search) returns (r: Option<KeyStroke>, ghost row: nat, ghost best: seq<bool>)
    ensures CheapestOf(x, |x.map_.symbols|, r, row, best)
  {
    r, row, best := None, 0, [];
    for i := 0 to |x.map_.symbols|
      invariant CheapestOf(x, i, r, row, best)
    {
      var stroke, pick := BestInRow(x, i);
      NextRow(x, i, r, row, best, stroke, pick);
      if stroke.Some? && (r.None? || |stroke.value.modifiers| < |r.value.modifiers|) {
        r, row, best := stroke, i, pick;
      }
    }
  }

  // ----- minimality after dropping repeated keys -----

  ghost predicate DistinctKeycodes(keys: seq<ModifierKey>) {
    forall i, j :: 0 <= i < j < |keys| ==> keys[i].keycode != keys[j].keycode
  }

  function Without(keys: seq<ModifierKey>, pick: seq<bool>, held: seq<nat>): (r: seq<bool>)
    requires |pick| == |keys|
    ensures |r| == |keys|
  {
    seq(|keys|, i requires 0 <= i < |keys| => pick[i] && keys[i].keycode !in held)
  }

  lemma {:induction false} ChosenMember(keys: seq<ModifierKey>, pick: seq<bool>, k: nat)
    requires |pick| == |keys| && k in Chosen(keys, pick)
    ensures exists i :: 0 <= i < |keys| && keys[i].keycode == k
  {
    var n := |keys| - 1;
    if k in Chosen(keys[..n], pick[..n]) {
      ChosenMember(keys[..n], pick[..n], k);
    }
  }

  function NotHeld(chosen: seq<nat>, held: seq<nat>): seq<nat> {
    if chosen == [] then []
    else
      var n := |chosen| - 1;
      NotHeld(chosen[..n], held) + (if chosen[n] in held then [] else [chosen[n]])
  }

  ghost predicate Distinct(items: seq<nat>) {
    forall i, j :: 0 <= i < j < |items| ==> items[i] != items[j]
  }

  lemma {:induction false} PressesSize(held: seq<nat>, chosen: seq<nat>)
    requires Distinct(chosen)
    ensures |Presses(held, chosen)| == |held| + |NotHeld(chosen, held)|
  {
    if chosen != [] {
      var n := |chosen| - 1;
      PressesSize(held, chosen[..n]);
      PressesMembers(held, chosen[..n]);
      assert chosen[n] !in chosen[..n];
    }
  }

  lemma {:induction false} ChosenDistinct(keys: seq<ModifierKey>, pick: seq<bool>)
    requires |pick| == |keys| && DistinctKeycodes(keys)
    ensures Distinct(Chosen(keys, pick))
  {
    if keys != [] {
      var n := |keys| - 1;
      ChosenDistinct(keys[..n], pick[..n]);
      if keys[n].keycode in Chosen(keys[..n], pick[..n]) {
        ChosenMember(keys[..n], pick[..n], keys[n].keycode);
      }
    }
  }

  lemma {:induction false} WithoutIsNotHeld(keys: seq<ModifierKey>, pick: seq<bool>, held: seq<nat>)
    requires |pick| == |keys|
    ensures Chosen(keys, Without(keys, pick, held)) == NotHeld(Chosen(keys, pick), held)
  {
    if keys != [] {
      var n := |keys| - 1;
      WithoutIsNotHeld(keys[..n], pick[..n], held);
      var fewer := Without(keys, pick, held);
      assert fewer[..n] == Without(keys[..n], pick[..n], held);
      var init := Chosen(keys[..n], pick[..n]);
      if pick[n] {
        assert (init + [keys[n].keycode])[..|init|] == init;
      } else {
        assert Chosen(keys, pick) == init;
      }
    }
  }

  /** Pressing a subset after the held keys costs exactly its keys that are not held already. */
  lemma PressesCost(keys: seq<ModifierKey>, pick: seq<bool>, held: seq<nat>)
    requires |pick| == |keys| && DistinctKeycodes(keys)
    ensures |Presses(held, Chosen(keys, pick))| == |held| + |Chosen(keys, Without(keys, pick, held))|
  {
    ChosenDistinct(keys, pick);
    PressesSize(held, Chosen(keys, pick));
    WithoutIsNotHeld(keys, pick, held);
  }

  /** Keys whose bits are in effect already change nothing. */
  lemma {:induction false} WithoutSameBits(keys: seq<ModifierKey>, pick: seq<bool>, held: seq<nat>, current: Mask)
    requires |pick| == |keys| && forall k :: k in keys && k.keycode in held ==> k.mods <= current
    ensures current + ChosenBits(keys, Without(keys, pick, held)) == current + ChosenBits(keys, pick)
  {
    if keys != [] {
      var n := |keys| - 1;
      assert keys[n] in keys;
      assert Without(keys, pick, held)[..n] == Without(keys[..n], pick[..n], held);
      WithoutSameBits(keys[..n], pick[..n], held, current);
    }
  }

  /** A search set up by `resolve_with_modifiers` for a map. */
  ghost predicate SetUp(x: Search, requested: seq<Modifier>) {
    var m := x.map_;
    var request := Requested(m, requested);
    && OneEntryPerKeycode(m) && MasksReal(m)
    && request.Held? && x.held == request.keys
    && x.current == m.state.mods + request.bits
    && x.tolerated == SafeBits(m) + request.bits
    && x.keys == MomentaryOf(m, m.modifierMap)
  }

  lemma DistinctInMap(map_: KeyboardMap, keys: seq<ModifierKey>)
    requires OneEntryPerKeycode(map_) && DistinctMods(keys) && forall k :: k in keys ==> k in map_.modifierMap
    ensures DistinctKeycodes(keys)
  {
    var entries := map_.modifierMap;
    forall i, j | 0 <= i < j < |keys| ensures keys[i].keycode != keys[j].keycode {
      assert keys[i] in keys && keys[j] in keys;
      var a :| 0 <= a < |entries| && entries[a] == keys[i];
      var b :| 0 <= b < |entries| && entries[b] == keys[j];
    }
  }

  lemma SetUpFacts(x: Search, requested: seq<Modifier>)
    requires SetUp(x, requested)
    ensures x.map_.state.mods + HeldBits(x.map_, x.held) == x.current
    ensures forall k :: k in x.keys ==> k in x.map_.modifierMap
    ensures DistinctKeycodes(x.keys)
    ensures forall k :: k in x.keys && k.keycode in x.held ==> k.mods <= x.current
  {
    RequestedHolds(x.map_, requested);
    MomentaryShape(x.map_, x.map_.modifierMap);
    DistinctInMap(x.map_, x.keys);
    forall k | k in x.keys && k.keycode in x.held ensures k.mods <= x.current {
      HeldOne(x.map_, k);
      assert HeldBits(x.map_, [k.keycode]) <= HeldBits(x.map_, x.held);
    }
  }

  /** What holding the stroke's modifiers puts in effect is what the search assumed. */
  lemma StrokeEffect(x: Search, requested: seq<Modifier>, row: nat, pick: seq<bool>, stroke: KeyStroke)
    requires SetUp(x, requested) && Typed(x, row, pick, stroke)
    ensures Selects(x.map_, row, x.map_.state.mods + HeldBits(x.map_, stroke.modifiers), x.wanted)
  {
    SetUpFacts(x, requested);
    var chosen := Chosen(x.keys, pick);
    PressesHold(x.map_, x.held, chosen);
    ChosenHolds(x.map_, x.keys, pick);
    assert x.map_.state.mods + HeldBits(x.map_, stroke.modifiers) == x.current + ChosenBits(x.keys, pick);
  }

  /** A candidate costs at least the best candidate that repeats no held key. */
  lemma CandidateCost(x: Search, requested: seq<Modifier>, row: nat, pick: seq<bool>)
    requires SetUp(x, requested) && Candidate(x, row, pick)
    ensures Candidate(x, row, Without(x.keys, pick, x.held))
    ensures |Presses(x.held, Chosen(x.keys, pick))| == |x.held| + |Chosen(x.keys, Without(x.keys, pick, x.held))|
  {
    SetUpFacts(x, requested);
    PressesCost(x.keys, pick, x.held);
    WithoutSameBits(x.keys, pick, x.held, x.current);
  }

  /** The search `resolve_with_modifiers` performs once its checks have passed. */
  ghost function SearchOf(map_: KeyboardMap, wanted: nat, request: Request): Search
    requires request.Held?
  {
    Search(map_, wanted, request.keys, map_.state.mods + request.bits, SafeBits(map_) + request.bits,
           MomentaryOf(map_, map_.modifierMap))
  }

  predicate Busy(state: XkbState) {
    state.base != {} || state.latched != {} || state.baseGroup != 0 || state.latchedGroup != 0
  }

  /** The stroke types the wanted symbol, with the requested modifiers held first. */
  ghost predicate Types(map_: KeyboardMap, wanted: nat, held: seq<nat>, stroke: KeyStroke) {
    && map_.minimum <= stroke.keycode < map_.minimum + |map_.symbols| && stroke.keycode <= 255
    && held <= stroke.modifiers
    && Selects(map_, stroke.keycode - map_.minimum, map_.state.mods + HeldBits(map_, stroke.modifiers), wanted)
  }

  /** No candidate needs fewer presses. */
  ghost predicate Minimal(x: Search, presses: nat) {
    forall row: nat, pick :: Candidate(x, row, pick) ==> presses <= |Presses(x.held, Chosen(x.keys, pick))|
  }

  /** The stroke is one the search may offer: an admissible key under some momentary modifiers. */
  ghost predicate Offered(x: Search, stroke: KeyStroke) {
    exists row: nat, pick :: Typed(x, row, pick, stroke)
  }

  ghost predicate Unreachable(x: Search) {
    forall row: nat, pick :: !Candidate(x, row, pick)
  }

  // ----- what the search leaves out -----

  /** A key as the server sees it: its group by the server's own rule. */
  ghost predicate ServerAddressable(x: Search, row: nat, g: nat) {
    && row < |x.map_.symbols| && x.map_.minimum + row <= 255
    && ServerGroup(x.map_.symbols[row].groupInfo, x.map_.state.group) == Some(g)
    && g < |x.map_.symbols[row].kinds| && x.map_.symbols[row].kinds[g] < |x.map_.types|
    && (g + 1) * x.map_.symbols[row].width <= |x.map_.symbols[row].syms|
  }

  /** A key that would yield the wanted symbol, by the server's rules alone. */
  ghost predicate ServerCandidate(x: Search, row: nat, pick: seq<bool>) {
    && (exists g: nat :: ServerAddressable(x, row, g) && Tolerates(x, x.map_.types[x.map_.symbols[row].kinds[g]]))
    && |pick| == |x.keys| && Selects(x.map_, row, x.current + ChosenBits(x.keys, pick), x.wanted)
  }

  /** The search considers exactly those of them whose group is in range, or brought into range by their range action. */
  lemma CandidateExactly(x: Search, row: nat, pick: seq<bool>)
    requires row < |x.map_.symbols|
    ensures Candidate(x, row, pick) <==>
              ServerCandidate(x, row, pick) && RangeOk(x.map_.symbols[row].groupInfo, x.map_.state.group)
  {
    var info, group := x.map_.symbols[row].groupInfo, x.map_.state.group;
    GroupRefusedExactly(info, group);
    if Candidate(x, row, pick) {
      var g: nat :| Addressable(x, row, g) && Tolerates(x, x.map_.types[x.map_.symbols[row].kinds[g]]);
      assert ServerAddressable(x, row, g);
    }
    if ServerCandidate(x, row, pick) && RangeOk(info, group) {
      var g: nat :| ServerAddressable(x, row, g) && Tolerates(x, x.map_.types[x.map_.symbols[row].kinds[g]]);
      assert Addressable(x, row, g);
    }
  }

  /** So a symbol called unavailable is one that no such key yields. */
  lemma UnreachableExactly(x: Search)
    ensures Unreachable(x) <==>
              forall row: nat, pick :: ServerCandidate(x, row, pick) ==>
                !RangeOk(x.map_.symbols[row].groupInfo, x.map_.state.group)
  {
    forall row: nat, pick | row < |x.map_.symbols|
      ensures Candidate(x, row, pick) <==>
                ServerCandidate(x, row, pick) && RangeOk(x.map_.symbols[row].groupInfo, x.map_.state.group)
    {
      CandidateExactly(x, row, pick);
    }
  }

  method SearchStroke(x: Search, ghost requested: seq<Modifier>) returns (r: Option<KeyStroke>)
    requires SetUp(x, requested)
    ensures r.Some? ==> Types(x.map_, x.wanted, x.held, r.value) && Offered(x, r.value) && Minimal(x, |r.value.modifiers|)
    ensures r.None? ==> Unreachable(x)
  {
    ghost var row, best;
    r, row, best := BestStroke(x);
    if r.Some? {
      StrokeEffect(x, requested, row, best, r.value);
      PressesMembers(x.held, Chosen(x.keys, best));
      forall q: nat, p | Candidate(x, q, p)
        ensures |r.value.modifiers| <= |Presses(x.held, Chosen(x.keys, p))|
      {
        CandidateCost(x, requested, q, p);
      }
    }
  }

  /**
   `resolve_with_modifiers`. A stroke types exactly the wanted symbol on the returned key with the
   requested modifiers held first; no admissible key does it with fewer modifier presses; and the
   symbol is reported unavailable only when no admissible key reaches it with any momentary modifiers.
   */
  method Resolve(map_: KeyboardMap, wanted: nat, requested: seq<Modifier>) returns (r: Resolved)
    requires OneEntryPerKeycode(map_)
    ensures var request := Requested(map_, requested);
            if Busy(map_.state) then r == Refused(ModifierActive)
            else if request.Denied? then r == Refused(request.error)
            else if !Real(map_.state.mods) || !MasksReal(map_) then r == Refused(BadMask)
            else
              var x := SearchOf(map_, wanted, request);
              if r.Stroke?
              then Types(map_, wanted, request.keys, r.stroke) && Offered(x, r.stroke) && Minimal(x, |r.stroke.modifiers|)
              else
                && r == Refused(SymbolUnavailable) && Unreachable(x)
                && forall row: nat, pick :: ServerCandidate(x, row, pick) ==> !RangeOk(map_.symbols[row].groupInfo, map_.state.group)
  {
    if Busy(map_.state) {
      return Refused(ModifierActive);
    }
    var request := HoldRequested(map_, requested);
    if request.Denied? {
      return Refused(request.error);
    }
    if !Real(map_.state.mods) {
      return Refused(BadMask);
    }
    var safe := SafeLocked(map_);
    if safe.None? {
      return Refused(BadMask);
    }
    var keys := MomentaryKeys(map_);
    var x := Search(map_, wanted, request.keys, map_.state.mods + request.bits, safe.value + request.bits, keys);
    assert SetUp(x, requested);
    var stroke := SearchStroke(x, requested);
    UnreachableExactly(x);
    r := if stroke.Some? then Resolved.Stroke(stroke.value) else Refused(SymbolUnavailable);
  }

  /** A keyboard of one key with one group, whose range action redirects to a group it does not have. */
  function RedirectedMap(): KeyboardMap {
    KeyboardMap(8, [KeyType({}, 1, [])], [KeySyms(0x91, 1, [0], [0x61])], [], XkbState({}, {}, {}, {}, 0, 0, 1))
  }

  /** The server types the symbol with that key alone, and the search calls it unavailable. */
  method RedirectedKeyIsRefused() returns (r: Resolved)
    ensures r == Refused(SymbolUnavailable) && Selects(RedirectedMap(), 0, {}, 0x61)
  {
    var map_ := RedirectedMap();
    assert IsLevel(map_.types[0], {}, 0);
    assert Row(map_.symbols[0], 0)[0] == 0x61;
    assert LevelSelects(map_, map_.symbols[0], 0, 0, {}, 0x61);
    r := Resolve(map_, 0x61, []);
  }
}
