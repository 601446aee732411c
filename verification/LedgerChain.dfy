/** The in-memory hash chain of rfsn_kernel/ledger_chain.py.

    An entry is the caller's dict with three reserved keys added. The digest of
    an entry covers the caller's keys and the previous digest, so the chain can
    tell which entry was changed first. */
module LedgerChain {
  import opened Common
  import opened Json

  type Entry = map<string, Json>

  const INDEX := "_chain_index"
  const PREV := "_prev_hash"
  const HASH := "_chain_hash"

  const RESERVED := {INDEX, PREV, HASH}

  /** SHA-256 in hexadecimal and canonical JSON; `|` separates the two hashed
      parts. `show` is how a previous hash that is not a string is written there. */
  datatype Hasher = Hasher(sha: string -> string, canon: Entry -> string, show: Json -> string)

  function Shown(h: Hasher, prev: Json): string {
    match prev
    case Str(s) => s
    case _ => h.show(prev)
  }

  function Payload(h: Hasher, entry: Entry, prev: string): string {
    prev + "|" + h.canon(entry)
  }

  function EntryHash(h: Hasher, entry: Entry, prev: string): string {
    h.sha(Payload(h, entry, prev))
  }

  function Clean(entry: Entry): Entry {
    entry - RESERVED
  }

  /** `entry` as stored at position `index` behind the digest `prev`. */
  function Augmented(h: Hasher, entry: Entry, index: nat, prev: Json): Entry {
    entry[INDEX := Num(index as real)][PREV := prev][HASH := Str(EntryHash(h, entry, Shown(h, prev)))]
  }

  datatype Reason = PrevMismatch | HashMismatch

  datatype Verdict = Valid(length: nat) | Invalid(length: nat, firstInvalid: nat, reason: Reason)

  /** The digest an entry must point to: its predecessor's, or the seed's. */
  function PrevOf(h: Hasher, seed: string, entries: seq<Entry>, i: nat): Json
    requires i <= |entries|
  {
    if i == 0 then Str(h.sha(seed)) else Get(entries[i - 1], HASH)
  }

  predicate ValidAt(h: Hasher, seed: string, entries: seq<Entry>, i: nat)
    requires i < |entries|
  {
    var prev := PrevOf(h, seed, entries, i);
    prev.Str? && Get(entries[i], PREV) == prev
    && Get(entries[i], HASH) == Str(EntryHash(h, Clean(entries[i]), prev.s))
  }

  /** The verdict names the first entry that is not valid, or says there is none. */
  ghost predicate FindsFirstInvalid(h: Hasher, seed: string, entries: seq<Entry>, v: Verdict) {
    && v.length == |entries|
    && (v.Invalid? ==> v.firstInvalid < |entries| && !ValidAt(h, seed, entries, v.firstInvalid)
                       && (v.reason == PrevMismatch <==> Get(entries[v.firstInvalid], "_prev_hash") != PrevOf(h, seed, entries, v.firstInvalid)))
    && forall i :: 0 <= i < (if v.Valid? then |entries| else v.firstInvalid) ==> ValidAt(h, seed, entries, i)
  }

  /** On the keys of an entry: it is valid exactly when it points to the hash its
      predecessor stores - the seed's digest, if it is the first - and stores the
      digest of that hash, a bar and its own contents without the chain's keys. */
  lemma {:induction false} ValidMeans(h: Hasher, seed: string, entries: seq<Entry>, i: nat)
    requires i < |entries|
    ensures ValidAt(h, seed, entries, i) <==>
            && "_prev_hash" in entries[i] && entries[i]["_prev_hash"].Str?
            && (if i == 0 then entries[i]["_prev_hash"].s == h.sha(seed)
                else "_chain_hash" in entries[i - 1] && entries[i - 1]["_chain_hash"] == entries[i]["_prev_hash"])
            && "_chain_hash" in entries[i]
            && entries[i]["_chain_hash"] ==
               Str(h.sha(entries[i]["_prev_hash"].s + "|" + h.canon(entries[i] - {"_chain_index", "_prev_hash", "_chain_hash"})))
  {
    assert Clean(entries[i]) == entries[i] - {"_chain_index", "_prev_hash", "_chain_hash"};
  }

  /** What is stored: the caller's keys, and over them the index, the previous hash
      and the digest of that hash, a bar and the caller's dict as it came. */
  lemma {:induction false} StoredMeans(h: Hasher, entry: Entry, index: nat, prev: string, key: string)
    ensures var stored := Augmented(h, entry, index, Str(prev));
            && "_chain_index" in stored && stored["_chain_index"] == Num(index as real)
            && "_prev_hash" in stored && stored["_prev_hash"] == Str(prev)
            && "_chain_hash" in stored && stored["_chain_hash"] == Str(h.sha(prev + "|" + h.canon(entry)))
            && (key !in {"_chain_index", "_prev_hash", "_chain_hash"} ==>
                  (key in stored <==> key in entry) && (key in stored ==> stored[key] == entry[key]))
  {
    assert |INDEX| == 12 && |PREV| == 10 && |HASH| == 11;
  }

  // ------------------------------------------------------------ what is built

  function LastHash(h: Hasher, seed: string, built: seq<Entry>): string {
    if built == [] then h.sha(seed) else EntryHash(h, built[|built| - 1], LastHash(h, seed, built[..|built| - 1]))
  }

  /** The stored entries after appending these contents to a fresh chain. */
  function Build(h: Hasher, seed: string, contents: seq<Entry>): (entries: seq<Entry>)
    ensures |entries| == |contents|
  {
    if contents == [] then []
    else
      var n := |contents| - 1;
      Build(h, seed, contents[..n]) + [Augmented(h, contents[n], n, Str(LastHash(h, seed, contents[..n])))]
  }

  predicate Unreserved(entry: Entry) {
    entry.Keys !! RESERVED
  }

  lemma {:induction false} BuildAt(h: Hasher, seed: string, contents: seq<Entry>, i: nat)
    requires i < |contents|
    ensures Build(h, seed, contents)[i] == Augmented(h, contents[i], i, Str(LastHash(h, seed, contents[..i])))
    ensures PrevOf(h, seed, Build(h, seed, contents), i) == Str(LastHash(h, seed, contents[..i]))
  {
    var front := contents[..|contents| - 1];
    if i < |front| {
      BuildAt(h, seed, front, i);
      assert front[..i] == contents[..i];
    }
    if i > 0 && i == |front| {
      BuildAt(h, seed, front, i - 1);
      assert contents[..i][..i - 1] == front[..i - 1] && contents[..i][i - 1] == front[i - 1];
    }
  }

  /** No two of the texts hashed for these entries share a digest, and no two of
      the entries share a canonical text. */
  ghost predicate NoCollision(h: Hasher, a: Entry, b: Entry, prev: string) {
    (h.sha(Payload(h, a, prev)) == h.sha(Payload(h, b, prev)) ==> Payload(h, a, prev) == Payload(h, b, prev))
    && (h.canon(a) == h.canon(b) ==> a == b)
  }

  lemma SameHashSameEntry(h: Hasher, a: Entry, b: Entry, prev: string)
    requires NoCollision(h, a, b, prev) && EntryHash(h, a, prev) == EntryHash(h, b, prev)
    ensures a == b
  {
    var p, q := Payload(h, a, prev), Payload(h, b, prev);
    assert p[|prev| + 1..] == h.canon(a) && q[|prev| + 1..] == h.canon(b);
  }

  /** The stored chain with the caller's keys of each entry replaced, the three
      reserved keys left as they were. */
  function Tampered(entries: seq<Entry>, contents: seq<Entry>): (t: seq<Entry>)
    requires |entries| == |contents|
    ensures |t| == |entries|
    ensures forall i :: 0 <= i < |t| ==> t[i] == Clean(contents[i]) + (entries[i] - (entries[i].Keys - RESERVED))
  {
    seq(|entries|, i requires 0 <= i < |entries| => Clean(contents[i]) + (entries[i] - (entries[i].Keys - RESERVED)))
  }

  /** After any change of contents, an entry of the stored chain is valid exactly
      when its contents are unchanged. */
  lemma {:induction false} TamperedValidAt(h: Hasher, seed: string, original: seq<Entry>, changed: seq<Entry>, i: nat)
    requires |original| == |changed| && i < |original| && Unreserved(original[i]) && Unreserved(changed[i])
    requires NoCollision(h, original[i], changed[i], LastHash(h, seed, original[..i]))
    ensures ValidAt(h, seed, Tampered(Build(h, seed, original), changed), i) <==> changed[i] == original[i]
  {
    var built := Build(h, seed, original);
    var t := Tampered(built, changed);
    var prev := LastHash(h, seed, original[..i]);
    BuildAt(h, seed, original, i);
    assert Clean(t[i]) == changed[i];
    assert Get(t[i], PREV) == Str(prev) && Get(t[i], HASH) == Str(EntryHash(h, original[i], prev));
    if i > 0 {
      assert Get(t[i - 1], HASH) == Get(built[i - 1], HASH) by { BuildAt(h, seed, original, i - 1); }
    }
    if EntryHash(h, original[i], prev) == EntryHash(h, changed[i], prev) {
      SameHashSameEntry(h, original[i], changed[i], prev);
    }
  }

  ghost predicate Changeable(h: Hasher, seed: string, original: seq<Entry>, changed: seq<Entry>, i: nat)
    requires i < |original| == |changed|
  {
    Unreserved(original[i]) && Unreserved(changed[i])
    && NoCollision(h, original[i], changed[i], LastHash(h, seed, original[..i]))
  }

  /** Changing contents makes the first invalid index exactly the least changed
      one, and a chain with nothing changed is valid. */
  lemma {:induction false} FirstInvalidIsLeastChanged(h: Hasher, seed: string, original: seq<Entry>, changed: seq<Entry>, v: Verdict)
    requires |original| == |changed|
    requires AllChangeable(h, seed, original, changed)
    requires FindsFirstInvalid(h, seed, Tampered(Build(h, seed, original), changed), v)
    ensures JudgesChange(original, changed, v)
  {
    var t := Tampered(Build(h, seed, original), changed);
    var n := if v.Valid? then |t| else v.firstInvalid;
    forall i | 0 <= i < n
      ensures changed[i] == original[i]
    {
      assert Changeable(h, seed, original, changed, i) && ValidAt(h, seed, t, i);
      TamperedValidAt(h, seed, original, changed, i);
    }
    if v.Invalid? {
      assert Changeable(h, seed, original, changed, n) && !ValidAt(h, seed, t, n);
      TamperedValidAt(h, seed, original, changed, n);
    }
    hide ValidAt, Tampered, Build, Changeable;
  }

  /** A chain just built verifies at an entry exactly when the caller's dict held
      none of the reserved keys: those are hashed on append, stripped on verify. */
  lemma BuiltValidAt(h: Hasher, seed: string, contents: seq<Entry>, i: nat)
    requires i < |contents| && NoCollision(h, contents[i], Clean(contents[i]), LastHash(h, seed, contents[..i]))
    ensures ValidAt(h, seed, Build(h, seed, contents), i) <==> Unreserved(contents[i])
  {
    var prev := LastHash(h, seed, contents[..i]);
    var stored := Augmented(h, contents[i], i, Str(prev));
    BuildAt(h, seed, contents, i);
    assert Clean(stored) == Clean(contents[i]);
    if EntryHash(h, contents[i], prev) == EntryHash(h, Clean(contents[i]), prev) {
      SameHashSameEntry(h, contents[i], Clean(contents[i]), prev);
    }
    assert Unreserved(contents[i]) ==> Clean(contents[i]) == contents[i];
  }

  lemma BuildIsAppend(h: Hasher, seed: string, contents: seq<Entry>, entry: Entry)
    ensures Build(h, seed, contents + [entry]) ==
            Build(h, seed, contents) + [Augmented(h, entry, |contents|, Str(LastHash(h, seed, contents)))]
    ensures LastHash(h, seed, contents + [entry]) == EntryHash(h, entry, LastHash(h, seed, contents))
  {
    assert (contents + [entry])[..|contents|] == contents;
  }

  /** A chain just built is valid exactly when no entry appended to it held a
      reserved key, and is otherwise first invalid at the first that did. */
  lemma {:induction false} BuiltChainVerdict(h: Hasher, seed: string, contents: seq<Entry>, v: Verdict)
    requires BuiltWithoutCollision(h, seed, contents) && FindsFirstInvalid(h, seed, Build(h, seed, contents), v)
    ensures JudgesBuilt(contents, v)
  {
    forall i | 0 <= i < |contents|
      ensures ValidAt(h, seed, Build(h, seed, contents), i) <==> Unreserved(contents[i])
    {
      BuiltValidAt(h, seed, contents, i);
    }
    hide ValidAt, Unreserved, Build;
  }

  // ------------------------------------------------------------------ the chain

  /** No entry appended held a reserved key, or else the first that did is named. */
  ghost predicate JudgesBuilt(contents: seq<Entry>, v: Verdict) {
    && (v.Valid? <==> forall i :: 0 <= i < |contents| ==> Unreserved(contents[i]))
    && (v.Invalid? ==> v.firstInvalid < |contents| && !Unreserved(contents[v.firstInvalid])
                       && forall i :: 0 <= i < v.firstInvalid ==> Unreserved(contents[i]))
  }

  /** Nothing was changed, or else the first entry changed is named. */
  ghost predicate JudgesChange(original: seq<Entry>, changed: seq<Entry>, v: Verdict)
    requires |original| == |changed|
  {
    && (v.Valid? <==> original == changed)
    && (v.Invalid? ==> v.firstInvalid < |original| && original[v.firstInvalid] != changed[v.firstInvalid]
                       && original[..v.firstInvalid] == changed[..v.firstInvalid])
  }

  ghost predicate BuiltWithoutCollision(h: Hasher, seed: string, contents: seq<Entry>) {
    forall i :: 0 <= i < |contents| ==> NoCollision(h, contents[i], Clean(contents[i]), LastHash(h, seed, contents[..i]))
  }

  ghost predicate AllChangeable(h: Hasher, seed: string, original: seq<Entry>, changed: seq<Entry>)
    requires |original| == |changed|
  {
    forall i :: 0 <= i < |original| ==> Changeable(h, seed, original, changed, i)
  }

  /** If the entries are those of a built chain with other contents, the verdict
      names the first entry changed. */
  ghost predicate JudgesTampering(h: Hasher, seed: string, entries: seq<Entry>, v: Verdict) {
    forall original: seq<Entry>, changed: seq<Entry> |
      |original| == |changed| && AllChangeable(h, seed, original, changed) && entries == Tampered(Build(h, seed, original), changed) ::
      JudgesChange(original, changed, v)
  }

  class Chain {
    const h: Hasher
    const seed: string
    var entries: seq<Entry>
    var prevHash: Json
    ghost var contents: seq<Entry>

    /** The chain is what appending `contents` one by one has left. */
    ghost predicate Valid()
      reads this
    {
      entries == Build(h, seed, contents) && prevHash == Str(LastHash(h, seed, contents))
    }

    constructor (h: Hasher, seed: string)
      ensures this.h == h && this.seed == seed && entries == [] && prevHash == Str(h.sha(seed))
      ensures Valid() && contents == []
    {
      this.h := h;
      this.seed := seed;
      entries := [];
      prevHash := Str(h.sha(seed));
      contents := [];
    }

    /** `load`: the saved entries are taken over as they are. None is the KeyError
        of a last entry without a chain hash. */
    static method Load(h: Hasher, seed: string, saved: seq<Entry>) returns (c: Option<Chain>)
      ensures c.None? <==> saved != [] && HASH !in saved[|saved| - 1]
      ensures c.Some? ==> fresh(c.value) && c.value.h == h && c.value.seed == seed && c.value.entries == saved
                          && c.value.prevHash == PrevOf(h, seed, saved, |saved|)
      // Saving and loading a chain that was built leaves it a chain that was built.
      ensures forall built: seq<Entry> :: saved == Build(h, seed, built) ==> c.Some? && c.value.Valid()
    {
      var chain := new Chain(h, seed);
      if saved != [] && HASH !in saved[|saved| - 1] {
        forall built: seq<Entry> | saved == Build(h, seed, built)
          ensures false
        {
          BuildEnds(h, seed, built);
        }
        return None;
      }
      chain.entries := saved;
      if saved != [] {
        chain.prevHash := saved[|saved| - 1][HASH];
      }
      ghost var isBuilt := exists built: seq<Entry> :: saved == Build(h, seed, built);
      if isBuilt {
        ghost var built: seq<Entry> :| saved == Build(h, seed, built);
        BuildEnds(h, seed, built);
        chain.contents := built;
      }
      return Some(chain);
    }

    method Append(entry: Entry) returns (stored: Entry)
      modifies this
      ensures stored == Augmented(h, entry, |old(entries)|, old(prevHash))
      ensures entries == old(entries) + [stored]
      ensures prevHash == Str(EntryHash(h, entry, Shown(h, old(prevHash))))
      ensures old(prevHash).Str? ==> prevHash == Str(h.sha(old(prevHash).s + "|" + h.canon(entry)))
      ensures old(Valid()) ==> Valid() && contents == old(contents) + [entry]
    {
      BuildIsAppend(h, seed, contents, entry);
      stored := entry;
      stored := stored[INDEX := Num(|entries| as real)];
      stored := stored[PREV := prevHash];
      var newHash := EntryHash(h, entry, Shown(h, prevHash));
      stored := stored[HASH := Str(newHash)];
      entries := entries + [stored];
      prevHash := Str(newHash);
      contents := contents + [entry];
    }

    method Verify() returns (v: Verdict)
      ensures FindsFirstInvalid(h, seed, entries, v)
      // A chain that was built is valid but for entries that held reserved keys.
      ensures Valid() && BuiltWithoutCollision(h, seed, contents) ==> JudgesBuilt(contents, v)
      // One that was tampered with is invalid from the first change on.
      ensures JudgesTampering(h, seed, entries, v)
    {
      v := FirstInvalid();
      if Valid() && BuiltWithoutCollision(h, seed, contents) {
        BuiltChainVerdict(h, seed, contents, v);
      }
      forall original: seq<Entry>, changed: seq<Entry> |
        |original| == |changed| && AllChangeable(h, seed, original, changed) && entries == Tampered(Build(h, seed, original), changed)
        ensures JudgesChange(original, changed, v)
      {
        FirstInvalidIsLeastChanged(h, seed, original, changed, v);
      }
    }

    /** The loop of `verify`. */
    method FirstInvalid() returns (v: Verdict)
      ensures FindsFirstInvalid(h, seed, entries, v)
    {
      var prev := h.sha(seed);
      for i := 0 to |entries|
        invariant Str(prev) == PrevOf(h, seed, entries, i)
        invariant forall k :: 0 <= k < i ==> ValidAt(h, seed, entries, k)
      {
        var entry := entries[i];
        if Get(entry, PREV) != Str(prev) {
          return Invalid(|entries|, i, PrevMismatch);
        }
        var expected := EntryHash(h, Clean(entry), prev);
        if Get(entry, HASH) != Str(expected) {
          return Invalid(|entries|, i, HashMismatch);
        }
        prev := expected;
      }
      return Verdict.Valid(|entries|);
    }
  }

  lemma BuildEnds(h: Hasher, seed: string, built: seq<Entry>)
    ensures PrevOf(h, seed, Build(h, seed, built), |built|) == Str(LastHash(h, seed, built))
    ensures built != [] ==> HASH in Build(h, seed, built)[|built| - 1]
  {
    if built != [] { BuildAt(h, seed, built, |built| - 1); }
  }
}
