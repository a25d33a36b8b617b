/** The name filter of the binding list: a record is narrowed to the keys that
    contain every character of the filter text, case ignored. */
module BindingFilter {
  import opened Wrappers
  import opened Records

  /** Lower-casing of one character, for the ASCII letters. */
  function LowerChar(c: char): (l: char)
    ensures 'A' <= c <= 'Z' ==> 'a' <= l <= 'z' && l as int - c as int == 32
    ensures !('A' <= c <= 'Z') ==> l == c
  {
    if 'A' <= c <= 'Z' then (c as int + 32) as char else c
  }

  /** `s.toLowerCase()`, character by character. */
  function Lower(s: string): (r: string)
    ensures |r| == |s|
    ensures forall i :: 0 <= i < |s| ==> r[i] == LowerChar(s[i])
  {
    seq(|s|, i requires 0 <= i < |s| => LowerChar(s[i]))
  }

  /** The `reduce` over the filter's characters: `keep && lowerKey.includes(char)`. */
  function KeepAll(keep: bool, chars: string, lowerKey: string): (b: bool) {
    if chars == [] then keep else KeepAll(keep && chars[0] in lowerKey, chars[1..], lowerKey)
  }

  /** The fold keeps its seed exactly when every character occurs in the key. */
  lemma {:induction false} KeepAllMeansEveryCharOccurs(keep: bool, chars: string, lowerKey: string)
    ensures KeepAll(keep, chars, lowerKey) <==> keep && forall c :: c in chars ==> c in lowerKey
  {
    if chars != [] {
      KeepAllMeansEveryCharOccurs(keep && chars[0] in lowerKey, chars[1..], lowerKey);
      assert forall c :: c in chars <==> c == chars[0] || c in chars[1..];
    }
  }

  /** The predicate `filterRecord` hands to `objectKeyFilter`. */
  function KeyMatches(filter: string, key: string): (b: bool)
    ensures b <==> forall c :: c in Lower(filter) ==> c in Lower(key)
  {
    KeepAllMeansEveryCharOccurs(true, Lower(filter), Lower(key));
    KeepAll(true, Lower(filter), Lower(key))
  }

  /** It is membership, not a subsequence: "ba" matches "Abc". */
  lemma MatchIsNotSubsequence()
    ensures KeyMatches("ba", "Abc")
  {
    assert Lower("ba") == "ba" && Lower("Abc") == "abc";
    assert Lower("Abc")[1] == 'b' && Lower("Abc")[0] == 'a';
  }

  /** The entries whose key satisfies `pred`, in their order: the reference
      meaning of `objectKeyFilter`. */
  function Kept<A>(pred: string -> bool, r: Record<A>): (k: Record<A>)
    ensures forall i :: 0 <= i < |k| ==> k[i] in r && pred(k[i].0)
    ensures forall i :: 0 <= i < |r| && pred(r[i].0) ==> r[i] in k
  {
    if r == [] then []
    else (if pred(r[0].0) then [r[0]] else []) + Kept(pred, r[1..])
  }

  /** The fold of `objectKeyFilter` over the remaining `keys`, spreading each kept
      key into the accumulated record. */
  function KeyFold<A>(pred: string -> bool, record: Record<A>, keys: seq<string>, acc: Record<A>): (r: Record<A>)
    requires forall k :: k in keys ==> k in Keys(record)
  {
    if keys == [] then acc
    else
      var key := keys[0];
      KeyFold(pred, record, keys[1..], if pred(key) then Put(acc, key, Lookup(record, key).value) else acc)
  }

  /** `objectKeyFilter(pred, record)` */
  function ObjectKeyFilter<A>(pred: string -> bool, record: Record<A>): (r: Record<A>) {
    KeyFold(pred, record, Keys(record), [])
  }

  lemma {:induction false} PutNewKey<A>(r: Record<A>, k: string, v: A)
    requires k !in Keys(r)
    ensures Put(r, k, v) == r + [(k, v)]
  {
    if r != [] {
      assert Keys(r)[0] == r[0].0;
      assert Keys(r[1..]) == Keys(r)[1..];
      PutNewKey(r[1..], k, v);
    }
  }

  lemma {:induction false} KeptSnoc<A>(pred: string -> bool, r: Record<A>, e: (string, A))
    ensures Kept(pred, r + [e]) == Kept(pred, r) + if pred(e.0) then [e] else []
  {
    if r == [] {
      assert [] + [e] == [e];
    } else {
      assert (r + [e])[0] == r[0] && (r + [e])[1..] == r[1..] + [e];
      KeptSnoc(pred, r[1..], e);
    }
  }

  lemma SuffixKeysAreKeys<A>(record: Record<A>, i: nat)
    requires i <= |record|
    ensures forall k :: k in Keys(record[i..]) ==> k in Keys(record)
  {
    forall k | k in Keys(record[i..]) ensures k in Keys(record) {
      var j :| 0 <= j < |Keys(record[i..])| && Keys(record[i..])[j] == k;
      assert Keys(record)[i + j] == k;
    }
  }

  lemma KeptPrefixSnoc<A>(pred: string -> bool, record: Record<A>, i: nat)
    requires i < |record|
    ensures Kept(pred, record[..i + 1]) == Kept(pred, record[..i]) + if pred(record[i].0) then [record[i]] else []
  {
    assert record[..i + 1] == record[..i] + [record[i]];
    KeptSnoc(pred, record[..i], record[i]);
  }

  /** With unique keys, the key at position `i` is not among those kept before it. */
  lemma KeyNotKeptBefore<A>(pred: string -> bool, record: Record<A>, i: nat)
    requires UniqueKeys(record) && i < |record|
    ensures record[i].0 !in Keys(Kept(pred, record[..i]))
  {
    var acc := Kept(pred, record[..i]);
    forall j | 0 <= j < |acc| ensures Keys(acc)[j] != record[i].0 {
      assert acc[j] in record[..i];
    }
  }

  /** One step of the fold spreads the next kept entry onto the end. */
  lemma FoldStep<A>(pred: string -> bool, record: Record<A>, i: nat)
    requires UniqueKeys(record) && i < |record|
    ensures var e, acc := record[i], Kept(pred, record[..i]);
      (if pred(e.0) then Put(acc, e.0, Lookup(record, e.0).value) else acc) == Kept(pred, record[..i + 1])
  {
    var e, acc := record[i], Kept(pred, record[..i]);
    KeptPrefixSnoc(pred, record, i);
    if pred(e.0) {
      calc {
        Put(acc, e.0, Lookup(record, e.0).value);
        { LookupAt(record, i); }
        Put(acc, e.0, e.1);
        { KeyNotKeptBefore(pred, record, i); PutNewKey(acc, e.0, e.1); }
        acc + [e];
      }
    } else {
      assert acc + [] == acc;
    }
  }

  /** Folding from position `i` on, with the entries before `i` already filtered,
      filters the whole record. */
  lemma {:induction false} KeyFoldFrom<A>(pred: string -> bool, record: Record<A>, i: nat)
    requires UniqueKeys(record) && i <= |record|
    ensures forall k :: k in Keys(record[i..]) ==> k in Keys(record)
    ensures KeyFold(pred, record, Keys(record[i..]), Kept(pred, record[..i])) == Kept(pred, record)
    decreases |record| - i
  {
    SuffixKeysAreKeys(record, i);
    if i == |record| {
      assert record[..i] == record;
    } else {
      var keys := Keys(record[i..]);
      assert keys[0] == record[i].0;
      assert keys[1..] == Keys(record[i + 1..]) by {
        assert record[i..][1..] == record[i + 1..];
      }
      FoldStep(pred, record, i);
      KeyFoldFrom(pred, record, i + 1);
    }
  }

  /** `objectKeyFilter` keeps, in order, exactly the entries whose key passes. */
  lemma ObjectKeyFilterIsKept<A>(pred: string -> bool, record: Record<A>)
    requires UniqueKeys(record)
    ensures ObjectKeyFilter(pred, record) == Kept(pred, record)
  {
    KeyFoldFrom(pred, record, 0);
    assert record[0..] == record;
  }

  /** Each spread of the fold keeps the accumulated record's keys unique. */
  lemma {:induction false} KeyFoldUnique<A>(pred: string -> bool, record: Record<A>, keys: seq<string>, acc: Record<A>)
    requires forall k :: k in keys ==> k in Keys(record)
    requires UniqueKeys(acc)
    ensures UniqueKeys(KeyFold(pred, record, keys, acc))
  {
    if keys != [] {
      var key := keys[0];
      if pred(key) {
        PutUnique(acc, key, Lookup(record, key).value);
      }
      KeyFoldUnique(pred, record, keys[1..], if pred(key) then Put(acc, key, Lookup(record, key).value) else acc);
    }
  }

  /** `objectKeyFilter` builds a JavaScript object: its keys are unique, and so
      are those of the reference filter on a record with unique keys. */
  lemma ObjectKeyFilterUnique<A>(pred: string -> bool, record: Record<A>)
    ensures UniqueKeys(ObjectKeyFilter(pred, record))
    ensures UniqueKeys(record) ==> UniqueKeys(Kept(pred, record))
  {
    KeyFoldUnique(pred, record, Keys(record), []);
    if UniqueKeys(record) {
      ObjectKeyFilterIsKept(pred, record);
    }
  }

  /** A key of the result is a key of the input, it carries its original value, and
      whether it is kept depends on that key alone. */
  lemma {:induction false} KeptLookup<A>(pred: string -> bool, r: Record<A>, k: string)
    ensures Lookup(Kept(pred, r), k) == if pred(k) then Lookup(r, k) else None
  {
    if r != [] {
      var t := Kept(pred, r[1..]);
      KeptLookup(pred, r[1..], k);
      if pred(r[0].0) {
        var kr := [r[0]] + t;
        assert Kept(pred, r) == kr;
        assert kr[0] == r[0] && kr[1..] == t;
      } else {
        assert Kept(pred, r) == [] + t == t;
      }
    }
  }

  /** A predicate that passes every key keeps the record; one that passes none
      leaves it empty. */
  lemma {:induction false} KeptAllOrNothing<A>(r: Record<A>)
    ensures Kept(_ => true, r) == r
    ensures Kept(_ => false, r) == []
  {
    if r != [] {
      KeptAllOrNothing(r[1..]);
    }
  }

  /** Two predicates that agree on every key keep the same entries. */
  lemma {:induction false} KeptSamePredicate<A>(p: string -> bool, q: string -> bool, r: Record<A>)
    requires forall k :: p(k) == q(k)
    ensures Kept(p, r) == Kept(q, r)
  {
    if r != [] {
      KeptSamePredicate(p, q, r[1..]);
    }
  }

  /** `filterRecord(filter, record)` */
  function FilterRecord<A>(filter: string, record: Record<A>): (r: Record<A>) {
    if |filter| < 1 then record
    else ObjectKeyFilter((key: string) => KeyMatches(filter, key), record)
  }

  /** An empty filter shows the whole record. */
  lemma FilterRecordEmpty<A>(record: Record<A>)
    ensures FilterRecord("", record) == record
  {
  }

  /** The filtered record handed on to the list has unique keys. */
  lemma FilterRecordUnique<A>(filter: string, record: Record<A>)
    requires UniqueKeys(record)
    ensures UniqueKeys(FilterRecord(filter, record))
  {
    ObjectKeyFilterUnique((key: string) => KeyMatches(filter, key), record);
  }

  /** A key stays, with its value, exactly when every character of the filter
      occurs in it, case ignored; other keys do not matter. */
  lemma FilterRecordLookup<A>(filter: string, record: Record<A>, key: string)
    requires UniqueKeys(record)
    ensures Lookup(FilterRecord(filter, record), key) ==
      if forall c :: c in Lower(filter) ==> c in Lower(key) then Lookup(record, key) else None
  {
    if |filter| >= 1 {
      ObjectKeyFilterIsKept((k: string) => KeyMatches(filter, k), record);
      KeptLookup((k: string) => KeyMatches(filter, k), record, key);
    }
  }

  /** The result holds entries of the record only, in the record's order. */
  lemma FilterRecordIsSubRecord<A>(filter: string, record: Record<A>)
    requires UniqueKeys(record)
    ensures forall i :: 0 <= i < |FilterRecord(filter, record)| ==> FilterRecord(filter, record)[i] in record
    ensures |filter| >= 1 ==> FilterRecord(filter, record) == Kept((k: string) => KeyMatches(filter, k), record)
  {
    if |filter| >= 1 {
      ObjectKeyFilterIsKept((k: string) => KeyMatches(filter, k), record);
    }
  }

  /** Only the set of (lower-cased) characters of the filter matters: reordering
      or repeating them changes nothing. */
  lemma FilterRecordDependsOnCharSet<A>(f1: string, f2: string, record: Record<A>)
    requires UniqueKeys(record)
    requires forall c :: c in Lower(f1) <==> c in Lower(f2)
    ensures FilterRecord(f1, record) == FilterRecord(f2, record)
  {
    var p := (k: string) => KeyMatches(f1, k);
    var q := (k: string) => KeyMatches(f2, k);
    if |f1| >= 1 && |f2| >= 1 {
      KeptSamePredicate(p, q, record);
      ObjectKeyFilterIsKept(p, record);
      ObjectKeyFilterIsKept(q, record);
    } else if |f1| >= 1 {
      assert Lower(f2) == [];
      assert forall k :: p(k);
      KeptSamePredicate(p, _ => true, record);
      KeptAllOrNothing(record);
      ObjectKeyFilterIsKept(p, record);
    } else if |f2| >= 1 {
      assert Lower(f1) == [];
      assert forall k :: q(k);
      KeptSamePredicate(q, _ => true, record);
      KeptAllOrNothing(record);
      ObjectKeyFilterIsKept(q, record);
    }
  }
}
