/**
 Preferences under renamed `localStorage` keys. Which storage calls throw is an input; one
 that throws reports failure here and leaves the storage alone.
 */
module LocalStorageMigration {
  import opened Text

  type Items = map<string, string>

  /** The first value under `keys` that parses. */
  function FirstValid<T>(items: Items, keys: seq<string>, parse: string -> Option<T>): Option<T> {
    if keys == [] then None
    else if keys[0] in items && parse(items[keys[0]]).Some? then parse(items[keys[0]])
    else FirstValid(items, keys[1..], parse)
  }

  function Read<T>(
    items: Items, currentKey: string, legacyKeys: seq<string>, fallback: T, parse: string -> Option<T>): T
  {
    var found := FirstValid(items, [currentKey] + legacyKeys, parse);
    if found.Some? then found.value else fallback
  }

  function Without(items: Items, keys: seq<string>): Items {
    items - (set k | k in keys)
  }

  // ---------- storage calls that throw ----------

  /** The next `count` calls work. */
  predicate Work(throws: nat -> bool, from: nat, count: nat) {
    forall k | from <= k < from + count :: !throws(k)
  }

  /** Of the calls from `from` on, number `i` is the first that throws. */
  predicate FailsAt(throws: nat -> bool, from: nat, i: nat) {
    Work(throws, from, i) && throws(from + i)
  }

  predicate IsValid<T>(items: Items, key: string, parse: string -> Option<T>) {
    key in items && parse(items[key]).Some?
  }

  /** No key before position `i` holds a value that parses. */
  predicate NoneBefore<T>(items: Items, keys: seq<string>, i: nat, parse: string -> Option<T>)
    requires i <= |keys|
  {
    forall j | 0 <= j < i :: !IsValid(items, keys[j], parse)
  }

  /** Asking for some key throws before one is found whose value parses. */
  predicate AskingFails<T>(
    items: Items, keys: seq<string>, parse: string -> Option<T>, throws: nat -> bool, from: nat)
  {
    exists i :: 0 <= i < |keys| && FailsAt(throws, from, i) && NoneBefore(items, keys, i, parse)
  }

  /** Where the value of a legacy key has been moved to, if its write is call `next`. */
  predicate IsMoved(
    before: Items, after: Items, currentKey: string, legacyKey: string, throws: nat -> bool, next: nat)
    requires legacyKey in before
  {
    var moved := before[currentKey := before[legacyKey]];
    after == if throws(next) then before else if throws(next + 1) then moved else moved - {legacyKey}
  }

  /** What a read whose first storage call is call `from` returns and leaves, exactly. */
  ghost predicate IsOutcome<T>(
    before: Items, after: Items, currentKey: string, legacyKeys: seq<string>, fallback: T,
    parse: string -> Option<T>, throws: nat -> bool, from: nat, value: T)
  {
    var keys := [currentKey] + legacyKeys;
    && (AskingFails(before, keys, parse, throws, from) || NoneBefore(before, keys, |keys|, parse) ==>
         value == fallback && after == before)
    && (!AskingFails(before, keys, parse, throws, from) && IsValid(before, currentKey, parse) ==>
         value == parse(before[currentKey]).value && after == before)
    && (forall i | 0 <= i < |legacyKeys| ::
         !AskingFails(before, keys, parse, throws, from) && NoneBefore(before, keys, 1 + i, parse)
         && IsValid(before, legacyKeys[i], parse) ==>
           && value == parse(before[legacyKeys[i]]).value
           && IsMoved(before, after, currentKey, legacyKeys[i], throws, from + (2 + i)))
  }

  lemma AskingFailed<T>(
    items: Items, currentKey: string, legacyKeys: seq<string>, fallback: T, parse: string -> Option<T>,
    throws: nat -> bool, from: nat, i: nat)
    requires i <= |legacyKeys| && FailsAt(throws, from, i)
    requires NoneBefore(items, [currentKey] + legacyKeys, i, parse)
    ensures IsOutcome(items, items, currentKey, legacyKeys, fallback, parse, throws, from, fallback)
  {
    assert AskingFails(items, [currentKey] + legacyKeys, parse, throws, from);
  }

  lemma NothingFound<T>(
    items: Items, currentKey: string, legacyKeys: seq<string>, fallback: T, parse: string -> Option<T>,
    throws: nat -> bool, from: nat)
    requires NoneBefore(items, [currentKey] + legacyKeys, 1 + |legacyKeys|, parse)
    ensures IsOutcome(items, items, currentKey, legacyKeys, fallback, parse, throws, from, fallback)
  {
    var keys := [currentKey] + legacyKeys;
    assert !IsValid(items, keys[0], parse);
    forall j | 0 <= j < |legacyKeys| ensures !IsValid(items, legacyKeys[j], parse) {
      assert keys[1 + j] == legacyKeys[j];
    }
  }

  lemma FoundCurrent<T>(
    items: Items, currentKey: string, legacyKeys: seq<string>, fallback: T, parse: string -> Option<T>,
    throws: nat -> bool, from: nat)
    requires Work(throws, from, 1) && IsValid(items, currentKey, parse)
    ensures IsOutcome(items, items, currentKey, legacyKeys, fallback, parse, throws, from,
                      parse(items[currentKey]).value)
  {
    assert IsValid(items, ([currentKey] + legacyKeys)[0], parse);
  }

  lemma FoundLegacy<T>(
    before: Items, after: Items, currentKey: string, legacyKeys: seq<string>, fallback: T,
    parse: string -> Option<T>, throws: nat -> bool, from: nat, i: nat)
    requires i < |legacyKeys| && Work(throws, from, 2 + i)
    requires NoneBefore(before, [currentKey] + legacyKeys, 1 + i, parse) && IsValid(before, legacyKeys[i], parse)
    requires IsMoved(before, after, currentKey, legacyKeys[i], throws, from + (2 + i))
    ensures IsOutcome(before, after, currentKey, legacyKeys, fallback, parse, throws, from,
                      parse(before[legacyKeys[i]]).value)
  {
    var keys := [currentKey] + legacyKeys;
    assert keys[1 + i] == legacyKeys[i] && !IsValid(before, keys[0], parse);
    assert !AskingFails(before, keys, parse, throws, from);
    forall j | 0 <= j < |legacyKeys| && NoneBefore(before, keys, 1 + j, parse)
      && IsValid(before, legacyKeys[j], parse)
      ensures j == i
    {
      assert keys[1 + j] == legacyKeys[j];
    }
  }

  class Storage {
    var items: Items
    /** The number of storage calls made so far. */
    var calls: nat
    const throws: nat -> bool

    constructor (initial: Items, throws: nat -> bool)
      ensures items == initial && calls == 0 && this.throws == throws
    {
      items := initial;
      calls := 0;
      this.throws := throws;
    }

    method GetItem(key: string) returns (ok: bool, value: Option<string>)
      modifies `calls
      ensures calls == old(calls) + 1 && ok == !throws(old(calls))
      ensures ok ==> value == if key in items then Some(items[key]) else None
    {
      ok := !throws(calls);
      value := if ok && key in items then Some(items[key]) else None;
      calls := calls + 1;
    }

    method SetItem(key: string, value: string) returns (ok: bool)
      modifies `items, `calls
      ensures calls == old(calls) + 1 && ok == !throws(old(calls))
      ensures items == if ok then old(items)[key := value] else old(items)
    {
      ok := !throws(calls);
      calls := calls + 1;
      if ok {
        items := items[key := value];
      }
    }

    method RemoveItem(key: string) returns (ok: bool)
      modifies `items, `calls
      ensures calls == old(calls) + 1 && ok == !throws(old(calls))
      ensures items == if ok then old(items) - {key} else old(items)
    {
      ok := !throws(calls);
      calls := calls + 1;
      if ok {
        items := items - {key};
      }
    }

    /**
     The keys are asked in order until one holds a value that parses. A call to ask that
     throws yields the fallback; one to move the value ends the move, whatever it has done.
     */
    method ReadMigrated<T>(currentKey: string, legacyKeys: seq<string>, fallback: T, parse: string -> Option<T>)
      returns (value: T)
      modifies `items, `calls
      ensures IsOutcome(old(items), items, currentKey, legacyKeys, fallback, parse, throws, old(calls), value)
      ensures AgreeElsewhere(old(items), items, [currentKey] + legacyKeys)
    {
      ghost var keys := [currentKey] + legacyKeys;
      var ok, current := GetItem(currentKey);
      if !ok {
        AskingFailed(items, currentKey, legacyKeys, fallback, parse, throws, old(calls), 0);
        return fallback;
      }
      if current.Some? {
        var parsed := parse(current.value);
        if parsed.Some? {
          FoundCurrent(items, currentKey, legacyKeys, fallback, parse, throws, old(calls));
          return parsed.value;
        }
      }
      assert !IsValid(items, keys[0], parse);
      for i := 0 to |legacyKeys|
        invariant items == old(items) && calls == old(calls) + (1 + i)
        invariant Work(throws, old(calls), 1 + i)
        invariant NoneBefore(items, keys, 1 + i, parse)
      {
        var legacyKey := legacyKeys[i];
        assert keys[1 + i] == legacyKey;
        var legacyValue;
        ok, legacyValue := GetItem(legacyKey);
        if !ok {
          AskingFailed(items, currentKey, legacyKeys, fallback, parse, throws, old(calls), 1 + i);
          return fallback;
        }
        if legacyValue.Some? {
          var parsed := parse(legacyValue.value);
          if parsed.Some? {
            ok := SetItem(currentKey, legacyValue.value);
            if ok {
              ok := RemoveItem(legacyKey);
            }
            FoundLegacy(
              old(items), items, currentKey, legacyKeys, fallback, parse, throws, old(calls), i);
            return parsed.value;
          }
        }
      }
      NothingFound(items, currentKey, legacyKeys, fallback, parse, throws, old(calls));
      return fallback;
    }

    /** The first throw ends the call; what came before it has happened. */
    method WriteMigrated(currentKey: string, legacyKeys: seq<string>, value: string)
      modifies `items, `calls
      ensures throws(old(calls)) ==> items == old(items)
      ensures forall n | 0 <= n < |legacyKeys| && FailsAt(throws, old(calls), 1 + n) ::
                items == Without(old(items)[currentKey := value], legacyKeys[..n])
      ensures Work(throws, old(calls), 1 + |legacyKeys|) ==>
                && items == Without(old(items)[currentKey := value], legacyKeys)
                && (forall k | k in legacyKeys :: k !in items)
                && (currentKey !in legacyKeys ==> currentKey in items && items[currentKey] == value)
      ensures !throws(old(calls)) ==> IsWritten(old(items), items, currentKey, legacyKeys, value)
      ensures AgreeElsewhere(old(items), items, [currentKey] + legacyKeys)
    {
      var ok := SetItem(currentKey, value);
      if !ok {
        return;
      }
      ghost var stored := items;
      for i := 0 to |legacyKeys|
        invariant items == Without(stored, legacyKeys[..i])
        invariant calls == old(calls) + (1 + i) && Work(throws, old(calls), 1 + i)
      {
        assert legacyKeys[..i + 1] == legacyKeys[..i] + [legacyKeys[i]];
        ok := RemoveItem(legacyKeys[i]);
        if !ok {
          return;
        }
      }
      assert legacyKeys[..|legacyKeys|] == legacyKeys;
    }

    method RemoveMigrated(currentKey: string, legacyKeys: seq<string>)
      modifies `items, `calls
      ensures forall n | 0 <= n <= |legacyKeys| && FailsAt(throws, old(calls), n) ::
                items == Without(old(items), ([currentKey] + legacyKeys)[..n])
      ensures Work(throws, old(calls), 1 + |legacyKeys|) ==>
                && items == Without(old(items), [currentKey] + legacyKeys)
                && currentKey !in items && (forall k | k in legacyKeys :: k !in items)
      ensures IsRemoved(old(items), items, currentKey, legacyKeys)
      ensures AgreeElsewhere(old(items), items, [currentKey] + legacyKeys)
    {
      ghost var keys := [currentKey] + legacyKeys;
      assert Without(items, keys[..0]) == items;
      var ok := RemoveItem(currentKey);
      if !ok {
        return;
      }
      assert keys[..1] == [currentKey];
      for i := 0 to |legacyKeys|
        invariant items == Without(old(items), keys[..1 + i])
        invariant calls == old(calls) + (1 + i) && Work(throws, old(calls), 1 + i)
      {
        assert keys[..2 + i] == keys[..1 + i] + [legacyKeys[i]];
        ok := RemoveItem(legacyKeys[i]);
        if !ok {
          return;
        }
      }
      assert keys[..|keys|] == keys;
    }
  }

  /** The value was stored, and a first part of the legacy keys removed. */
  ghost predicate IsWritten(before: Items, after: Items, currentKey: string, legacyKeys: seq<string>, value: string) {
    exists n | 0 <= n <= |legacyKeys| :: after == Without(before[currentKey := value], legacyKeys[..n])
  }

  /** A first part of all the keys is gone. */
  ghost predicate IsRemoved(before: Items, after: Items, currentKey: string, legacyKeys: seq<string>) {
    var keys := [currentKey] + legacyKeys;
    exists n | 0 <= n <= |keys| :: after == Without(before, keys[..n])
  }

  lemma ReadUnfolds<T>(
    items: Items, currentKey: string, legacyKeys: seq<string>, fallback: T, parse: string -> Option<T>)
    ensures FirstValid(items, [currentKey] + legacyKeys, parse) ==
            if currentKey in items && parse(items[currentKey]).Some? then parse(items[currentKey])
            else FirstValid(items, legacyKeys, parse)
  {
    assert ([currentKey] + legacyKeys)[1..] == legacyKeys;
  }

  /** A read finds the value of the first key, the current one before the others, that parses. */
  lemma ReadFindsFirst<T>(
      items: Items, currentKey: string, legacyKeys: seq<string>, i: nat, fallback: T, parse: string -> Option<T>)
    requires i <= |legacyKeys| && NoneBefore(items, [currentKey] + legacyKeys, i, parse)
    requires IsValid(items, ([currentKey] + legacyKeys)[i], parse)
    ensures Some(Read(items, currentKey, legacyKeys, fallback, parse)) ==
            parse(items[([currentKey] + legacyKeys)[i]])
  {
    FirstValidAt(items, [currentKey] + legacyKeys, i, parse);
  }

  lemma ReadFindsNone<T>(
      items: Items, currentKey: string, legacyKeys: seq<string>, fallback: T, parse: string -> Option<T>)
    requires NoneBefore(items, [currentKey] + legacyKeys, 1 + |legacyKeys|, parse)
    ensures Read(items, currentKey, legacyKeys, fallback, parse) == fallback
  {
    FirstValidIsFirst(items, [currentKey] + legacyKeys, parse);
  }

  lemma {:induction false} FirstValidAt<T>(items: Items, keys: seq<string>, i: nat, parse: string -> Option<T>)
    requires i < |keys| && NoneBefore(items, keys, i, parse) && IsValid(items, keys[i], parse)
    ensures FirstValid(items, keys, parse) == parse(items[keys[i]])
    decreases i
  {
    if i > 0 {
      assert !IsValid(items, keys[0], parse);
      forall j | 0 <= j < i - 1 ensures !IsValid(items, keys[1..][j], parse) {
        assert keys[1..][j] == keys[j + 1];
      }
      FirstValidAt(items, keys[1..], i - 1, parse);
    }
  }

  /** Unless asking throws, the value is the first that parses, and the next read finds it again. */
  lemma ReadThenRead<T>(
      before: Items, after: Items, currentKey: string, legacyKeys: seq<string>, fallback: T,
      parse: string -> Option<T>, throws: nat -> bool, from: nat, value: T)
    requires IsOutcome(before, after, currentKey, legacyKeys, fallback, parse, throws, from, value)
    requires !AskingFails(before, [currentKey] + legacyKeys, parse, throws, from)
    ensures value == Read(before, currentKey, legacyKeys, fallback, parse)
    ensures value == Read(after, currentKey, legacyKeys, fallback, parse)
  {
    var keys := [currentKey] + legacyKeys;
    if NoneBefore(before, keys, |keys|, parse) {
      ReadFindsNone(before, currentKey, legacyKeys, fallback, parse);
    } else {
      var i := FirstValidKey(before, keys, parse);
      ReadFindsFirst(before, currentKey, legacyKeys, i, fallback, parse);
      if i > 0 {
        assert keys[i] == legacyKeys[i - 1] && keys[0] == currentKey;
        RewriteKeepsValue(before, currentKey, legacyKeys, keys[i], parse);
      }
    }
  }

  lemma FirstValidKey<T>(items: Items, keys: seq<string>, parse: string -> Option<T>) returns (i: nat)
    requires !NoneBefore(items, keys, |keys|, parse)
    ensures i < |keys| && IsValid(items, keys[i], parse) && NoneBefore(items, keys, i, parse)
  {
    i := 0;
    while !IsValid(items, keys[i], parse)
      invariant i < |keys| && NoneBefore(items, keys, i, parse)
      decreases |keys| - i
    {
      i := i + 1;
    }
  }

  /** A value that parses, moved to the current key, is what every later read finds. */
  lemma RewriteKeepsValue<T>(
      items: Items, currentKey: string, legacyKeys: seq<string>, legacyKey: string, parse: string -> Option<T>)
    requires legacyKey in items && parse(items[legacyKey]).Some?
    requires currentKey in items ==> parse(items[currentKey]).None?
    ensures var stored := items[currentKey := items[legacyKey]];
            && FirstValid(stored, [currentKey] + legacyKeys, parse) == parse(items[legacyKey])
            && FirstValid(stored - {legacyKey}, [currentKey] + legacyKeys, parse) == parse(items[legacyKey])
  {
  }

  /**
   A read returns the first value that parses, the current key before the legacy keys in
   order, and the fallback when there is none.
   */
  lemma {:induction false} FirstValidIsFirst<T>(items: Items, keys: seq<string>, parse: string -> Option<T>)
    ensures match FirstValid(items, keys, parse)
            case None => forall k | 0 <= k < |keys| && keys[k] in items :: parse(items[keys[k]]).None?
            case Some(x) =>
              exists k | 0 <= k < |keys| ::
                && keys[k] in items && parse(items[keys[k]]) == Some(x)
                && forall j | 0 <= j < k && keys[j] in items :: parse(items[keys[j]]).None?
  {
    if keys != [] && !(keys[0] in items && parse(items[keys[0]]).Some?) {
      FirstValidIsFirst(items, keys[1..], parse);
      var rest := FirstValid(items, keys[1..], parse);
      if rest.Some? {
        var k :| 0 <= k < |keys[1..]| && keys[1..][k] in items && parse(items[keys[1..][k]]) == rest
          && forall j | 0 <= j < k && keys[1..][j] in items :: parse(items[keys[1..][j]]).None?;
        assert keys[k + 1] == keys[1..][k];
        forall j | 0 <= j < k + 1 && keys[j] in items ensures parse(items[keys[j]]).None? {
          assert j > 0 ==> keys[j] == keys[1..][j - 1];
        }
      } else {
        forall j | 0 <= j < |keys| && keys[j] in items ensures parse(items[keys[j]]).None? {
          assert j > 0 ==> keys[j] == keys[1..][j - 1];
        }
      }
    }
  }

  /**
   What was written is read back whatever removals threw, provided the current key is not
   one of the legacy keys that were removed.
   */
  lemma WrittenIsRead<T>(
      before: Items, currentKey: string, legacyKeys: seq<string>, value: string, n: nat, fallback: T,
      parse: string -> Option<T>)
    requires n <= |legacyKeys| && parse(value).Some?
    ensures var after := Without(before[currentKey := value], legacyKeys[..n]);
            && (currentKey !in legacyKeys[..n] ==>
                 Read(after, currentKey, legacyKeys, fallback, parse) == parse(value).value)
            && (currentKey in legacyKeys[..n] ==> currentKey !in after)
  {
  }

  /** For keys that differ, a stored value is read back: the two methods put together. */
  lemma WriteThenRead<T>(
      before: Items, after: Items, currentKey: string, legacyKeys: seq<string>, value: string, fallback: T,
      parse: string -> Option<T>)
    requires IsWritten(before, after, currentKey, legacyKeys, value)
    requires currentKey !in legacyKeys && parse(value).Some?
    ensures Read(after, currentKey, legacyKeys, fallback, parse) == parse(value).value
  {
    var n :| 0 <= n <= |legacyKeys| && after == Without(before[currentKey := value], legacyKeys[..n]);
    WrittenIsRead(before, currentKey, legacyKeys, value, n, fallback, parse);
  }

  lemma InPrefix(keys: seq<string>, n: nat)
    requires n <= |keys|
    ensures forall k | 0 <= k < n :: keys[k] in keys[..n]
  {
    forall k | 0 <= k < n ensures keys[k] in keys[..n] {
      assert keys[..n][k] == keys[k];
    }
  }

  /**
   After a removal that got through the first n keys, a read falls back if and only if no
   remaining key holds a value that parses: a throw can bring an older value back.
   */
  lemma RemovedIsGoneExactly<T>(before: Items, keys: seq<string>, n: nat, parse: string -> Option<T>)
    requires n <= |keys|
    ensures FirstValid(Without(before, keys[..n]), keys, parse).None? <==>
            forall k | n <= k < |keys| && keys[k] in before && keys[k] !in keys[..n] :: parse(before[keys[k]]).None?
  {
    var after := Without(before, keys[..n]);
    FirstValidIsFirst(after, keys, parse);
    InPrefix(keys, n);
    forall k | 0 <= k < |keys| && keys[k] in after ensures k >= n && keys[k] !in keys[..n] {
    }
  }

  /** No key, current or legacy, holds a value that parses. */
  predicate HoldsNothing<T>(items: Items, keys: seq<string>, parse: string -> Option<T>) {
    forall k | 0 <= k < |keys| && keys[k] in items :: parse(items[keys[k]]).None?
  }

  /**
   For the caller: after a removal a read is sure to fall back, whatever throws, if and
   only if it would have fallen back before.
   */
  lemma RemovalIsSureExactly<T>(
      before: Items, currentKey: string, legacyKeys: seq<string>, parse: string -> Option<T>)
    ensures var keys := [currentKey] + legacyKeys;
            (forall after: Items | IsRemoved(before, after, currentKey, legacyKeys) ::
              FirstValid(after, keys, parse).None?)
            <==> HoldsNothing(before, keys, parse)
  {
    var keys := [currentKey] + legacyKeys;
    forall after: Items | IsRemoved(before, after, currentKey, legacyKeys) && HoldsNothing(before, keys, parse)
      ensures FirstValid(after, keys, parse).None?
    {
      var n :| 0 <= n <= |keys| && after == Without(before, keys[..n]);
      RemovedIsGoneExactly(before, keys, n, parse);
    }
    assert Without(before, keys[..0]) == before;
    assert IsRemoved(before, before, currentKey, legacyKeys);
    RemovedIsGoneExactly(before, keys, 0, parse);
  }

  /**
   Once the current key is gone, a read is sure to fall back, whatever throws afterwards, if
   and only if no other key held a value that parses.
   */
  lemma RemovalPastCurrentIsSureExactly<T>(
      before: Items, currentKey: string, legacyKeys: seq<string>, parse: string -> Option<T>)
    requires currentKey !in legacyKeys
    ensures var keys := [currentKey] + legacyKeys;
            (forall n | 1 <= n <= |keys| :: FirstValid(Without(before, keys[..n]), keys, parse).None?)
            <==> HoldsNothing(before, legacyKeys, parse)
  {
    var keys := [currentKey] + legacyKeys;
    assert keys[1..] == legacyKeys && keys[..1] == [currentKey];
    forall n | 1 <= n <= |keys| && HoldsNothing(before, legacyKeys, parse)
      ensures FirstValid(Without(before, keys[..n]), keys, parse).None?
    {
      RemovedIsGoneExactly(before, keys, n, parse);
      forall k | n <= k < |keys| && keys[k] in before ensures parse(before[keys[k]]).None? {
        assert keys[k] == legacyKeys[k - 1];
      }
    }
    RemovedIsGoneExactly(before, keys, 1, parse);
    forall k | 0 <= k < |legacyKeys| && legacyKeys[k] in before
      && FirstValid(Without(before, keys[..1]), keys, parse).None?
      ensures parse(before[legacyKeys[k]]).None?
    {
      assert keys[k + 1] == legacyKeys[k] && keys[k + 1] !in keys[..1];
    }
  }

  // ---------- the keys ----------

  datatype Preference =
    Language | Theme | LastApp | DismissedUpdateVersion | SessionListViewMode | SessionGroupExpansion

  function CurrentKey(p: Preference): string {
    match p
    case Language => "llm-usage-bar:language"
    case Theme => "llm-usage-bar:theme"
    case LastApp => "llm-usage-bar:last-app"
    case DismissedUpdateVersion => "llm-usage-bar:update:dismissed-version"
    case SessionListViewMode => "llm-usage-bar:session-manager:list-view-mode"
    case SessionGroupExpansion => "llm-usage-bar:session-manager:group-expansion"
  }

  function LegacyKeys(p: Preference): seq<string> {
    match p
    case Language => ["language"]
    case Theme => ["cc-switch-theme"]
    case LastApp => ["cc-switch-last-app"]
    case DismissedUpdateVersion => ["ccswitch:update:dismissedVersion", "dismissedUpdateVersion"]
    case SessionListViewMode => ["cc-switch.sessionManager.listViewMode"]
    case SessionGroupExpansion => ["cc-switch.sessionManager.groupExpansionState"]
  }

  lemma CurrentKeysBegin(p: Preference)
    ensures |CurrentKey(p)| > 1 && CurrentKey(p)[1] == 'l'
  {
    match p
    case Language => assert "llm-usage-bar:language"[1] == 'l';
    case Theme => assert "llm-usage-bar:theme"[1] == 'l';
    case LastApp => assert "llm-usage-bar:last-app"[1] == 'l';
    case DismissedUpdateVersion => assert "llm-usage-bar:update:dismissed-version"[1] == 'l';
    case SessionListViewMode => assert "llm-usage-bar:session-manager:list-view-mode"[1] == 'l';
    case SessionGroupExpansion => assert "llm-usage-bar:session-manager:group-expansion"[1] == 'l';
  }

  lemma LegacyKeysBegin(q: Preference, k: nat)
    requires k < |LegacyKeys(q)|
    ensures |LegacyKeys(q)[k]| > 1 && LegacyKeys(q)[k][1] != 'l'
  {
    match q
    case Language => assert "language"[1] == 'a';
    case Theme => assert "cc-switch-theme"[1] == 'c';
    case LastApp => assert "cc-switch-last-app"[1] == 'c';
    case DismissedUpdateVersion =>
      assert "ccswitch:update:dismissedVersion"[1] == 'c' && "dismissedUpdateVersion"[1] == 'i';
    case SessionListViewMode => assert "cc-switch.sessionManager.listViewMode"[1] == 'c';
    case SessionGroupExpansion => assert "cc-switch.sessionManager.groupExpansionState"[1] == 'c';
  }

  /** No current key is a legacy key, so writing and migrating never lose a preference. */
  lemma CurrentIsNeverLegacy(p: Preference, q: Preference)
    ensures CurrentKey(p) !in LegacyKeys(q)
  {
    CurrentKeysBegin(p);
    forall k | 0 <= k < |LegacyKeys(q)| ensures LegacyKeys(q)[k] != CurrentKey(p) {
      LegacyKeysBegin(q, k);
    }
  }

  /** A removal that throws after its first key brings the older value back. */
  lemma AnOlderValueCanReturn(parse: string -> Option<string>)
    requires parse("dark") == Some("dark") && parse("light") == Some("light")
    ensures var current, legacy := CurrentKey(Theme), LegacyKeys(Theme);
            var before := map[current := "dark", legacy[0] := "light"];
            var after := map[legacy[0] := "light"];
            && Read(before, current, legacy, "system", parse) == "dark"
            && IsRemoved(before, after, current, legacy)
            && Read(after, current, legacy, "system", parse) == "light"
  {
    CurrentIsNeverLegacy(Theme, Theme);
    OlderValueReturns(CurrentKey(Theme), LegacyKeys(Theme)[0], parse);
    assert LegacyKeys(Theme) == [LegacyKeys(Theme)[0]];
  }

  lemma OlderValueReturns(current: string, legacy: string, parse: string -> Option<string>)
    requires current != legacy && parse("dark") == Some("dark") && parse("light") == Some("light")
    ensures var before := map[current := "dark", legacy := "light"];
            var after := map[legacy := "light"];
            && Read(before, current, [legacy], "system", parse) == "dark"
            && IsRemoved(before, after, current, [legacy])
            && Read(after, current, [legacy], "system", parse) == "light"
  {
    var before := map[current := "dark", legacy := "light"];
    var after := map[legacy := "light"];
    var keys := [current] + [legacy];
    assert after == Without(before, keys[..1]);
    ReadUnfolds(before, current, [legacy], "system", parse);
    ReadUnfolds(after, current, [legacy], "system", parse);
    assert FirstValid(after, [legacy], parse) == Some("light");
  }

  // ---------- preferences do not meet ----------

  function KeysOf(p: Preference): seq<string> {
    [CurrentKey(p)] + LegacyKeys(p)
  }

  lemma CurrentLengths(p: Preference)
    ensures |CurrentKey(p)| ==
            match p case Language => 22 case Theme => 19 case LastApp => 22 case DismissedUpdateVersion => 38
            case SessionListViewMode => 44 case SessionGroupExpansion => 45
  {
  }

  lemma LegacyLengths(p: Preference, k: nat)
    requires k < |LegacyKeys(p)|
    ensures |LegacyKeys(p)[k]| ==
            match p case Language => 8 case Theme => 15 case LastApp => 18
            case DismissedUpdateVersion => (if k == 0 then 32 else 22)
            case SessionListViewMode => 37 case SessionGroupExpansion => 44
  {
  }

  lemma CurrentKeysDiffer(p: Preference, q: Preference)
    requires p != q
    ensures CurrentKey(p) != CurrentKey(q)
  {
    CurrentLengths(p);
    CurrentLengths(q);
    assert "llm-usage-bar:language"[16] == 'n' && "llm-usage-bar:last-app"[16] == 's';
  }

  /** No key of one preference, current or legacy, is a key of another. */
  lemma KeysAreApart(p: Preference, q: Preference, key: string)
    requires p != q && key in KeysOf(p)
    ensures key !in KeysOf(q)
  {
    CurrentKeysDiffer(p, q);
    CurrentIsNeverLegacy(p, q);
    CurrentIsNeverLegacy(q, p);
    if key in LegacyKeys(p) && key in LegacyKeys(q) {
      var j :| 0 <= j < |LegacyKeys(p)| && LegacyKeys(p)[j] == key;
      var k :| 0 <= k < |LegacyKeys(q)| && LegacyKeys(q)[k] == key;
      LegacyLengths(p, j);
      LegacyLengths(q, k);
    }
  }

  /** The storages agree on every key that is not one of these. */
  ghost predicate AgreeElsewhere(before: Items, after: Items, keys: seq<string>) {
    forall k | k !in keys :: (k in before <==> k in after) && (k in before ==> before[k] == after[k])
  }

  lemma {:induction false} SameValues<T>(
      before: Items, after: Items, changed: seq<string>, keys: seq<string>, parse: string -> Option<T>)
    requires AgreeElsewhere(before, after, changed) && forall k | k in keys :: k !in changed
    ensures FirstValid(before, keys, parse) == FirstValid(after, keys, parse)
  {
    if keys != [] {
      assert keys[0] in keys;
      SameValues(before, after, changed, keys[1..], parse);
    }
  }

  /** Whatever reading, writing or removing one preference does, every other reads as before. */
  lemma OthersReadTheSame<T>(
      p: Preference, q: Preference, before: Items, after: Items, fallback: T, parse: string -> Option<T>)
    requires p != q && AgreeElsewhere(before, after, KeysOf(p))
    ensures Read(before, CurrentKey(q), LegacyKeys(q), fallback, parse)
         == Read(after, CurrentKey(q), LegacyKeys(q), fallback, parse)
  {
    forall k | k in KeysOf(q) ensures k !in KeysOf(p) {
      KeysAreApart(q, p, k);
    }
    SameValues(before, after, KeysOf(p), KeysOf(q), parse);
  }
}
