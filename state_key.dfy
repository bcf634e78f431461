/** The state key of the search: `serializePegs` writes each peg's disks top
    first joined by commas and joins the pegs with bars; `deserializePegs`
    splits the key again and rebuilds each peg by pushing its disks bottom
    first. A key is a sequence of symbols in which a whole decimal numeral
    is the one symbol `Num`. */
module StateKey {
  import opened PegStack
  import opened Hanoi

  datatype Sym = Num(n: nat) | Comma | Bar

  type Key = seq<Sym>

  /** `parts.join(sep)`. */
  function Join(parts: seq<Key>, sep: Sym): Key
    decreases |parts|
  {
    if |parts| == 0 then []
    else if |parts| == 1 then parts[0]
    else Join(parts[..|parts| - 1], sep) + [sep] + parts[|parts| - 1]
  }

  /** `s.split(sep)`: the pieces between separators, at least one piece even
      for the empty string. */
  function Split(s: Key, sep: Sym): (r: seq<Key>)
    ensures |r| >= 1
    ensures forall i :: 0 <= i < |r| ==> sep !in r[i]
    decreases |s|
  {
    if s == [] then [[]]
    else
      var p := Split(s[..|s| - 1], sep);
      var x := s[|s| - 1];
      if x == sep then p + [[]] else p[..|p| - 1] + [p[|p| - 1] + [x]]
  }

  /** Splitting after one more separator adds the piece that follows it. */
  lemma {:induction false} SplitAfterSep(s: Key, sep: Sym, q: Key)
    requires sep !in q
    ensures Split(s + [sep] + q, sep) == Split(s, sep) + [q]
    decreases |q|
  {
    if q == [] {
      assert s + [sep] + q == s + [sep];
      assert (s + [sep])[..|s + [sep]| - 1] == s;
    } else {
      var q' := q[..|q| - 1];
      var t := s + [sep] + q;
      assert t[..|t| - 1] == s + [sep] + q';
      assert q' + [q[|q| - 1]] == q;
      SplitAfterSep(s, sep, q');
    }
  }

  /** Splitting a single piece gives that piece back. */
  lemma {:induction false} SplitPiece(q: Key, sep: Sym)
    requires sep !in q
    ensures Split(q, sep) == [q]
    decreases |q|
  {
    if q != [] {
      var q' := q[..|q| - 1];
      assert q' + [q[|q| - 1]] == q;
      SplitPiece(q', sep);
    }
  }

  /** `split` undoes `join` when no piece holds the separator. */
  lemma {:induction false} SplitJoin(parts: seq<Key>, sep: Sym)
    requires |parts| >= 1
    requires forall i :: 0 <= i < |parts| ==> sep !in parts[i]
    ensures Split(Join(parts, sep), sep) == parts
    decreases |parts|
  {
    if |parts| == 1 {
      SplitPiece(parts[0], sep);
    } else {
      var init := parts[..|parts| - 1];
      SplitJoin(init, sep);
      SplitAfterSep(Join(init, sep), sep, parts[|parts| - 1]);
      assert init + [parts[|parts| - 1]] == parts;
    }
  }

  /** Joining one more, empty, piece appends a separator. */
  lemma {:induction false} JoinEmptyLast(parts: seq<Key>, sep: Sym)
    requires |parts| >= 1
    ensures Join(parts + [[]], sep) == Join(parts, sep) + [sep]
  {
    assert (parts + [[]])[..|parts|] == parts;
  }

  /** Growing the last piece grows the joined string at its end. */
  lemma {:induction false} JoinGrowLast(parts: seq<Key>, sep: Sym, x: Sym)
    requires |parts| >= 1
    ensures Join(parts[..|parts| - 1] + [parts[|parts| - 1] + [x]], sep) == Join(parts, sep) + [x]
  {
    var grown := parts[..|parts| - 1] + [parts[|parts| - 1] + [x]];
    assert grown[..|grown| - 1] == parts[..|parts| - 1];
  }

  /** `join` undoes `split`, for every string. */
  lemma {:induction false} JoinSplit(s: Key, sep: Sym)
    ensures Join(Split(s, sep), sep) == s
    decreases |s|
  {
    if s != [] {
      var s' := s[..|s| - 1];
      JoinSplit(s', sep);
      assert s' + [s[|s| - 1]] == s;
      if s[|s| - 1] == sep {
        JoinEmptyLast(Split(s', sep), sep);
      } else {
        JoinGrowLast(Split(s', sep), sep, s[|s| - 1]);
      }
    }
  }

  /** A symbol in neither the separator nor any piece is not in the joined string. */
  lemma {:induction false} JoinAvoids(parts: seq<Key>, sep: Sym, x: Sym)
    requires x != sep && forall i :: 0 <= i < |parts| ==> x !in parts[i]
    ensures x !in Join(parts, sep)
    decreases |parts|
  {
    if |parts| > 1 {
      JoinAvoids(parts[..|parts| - 1], sep, x);
    }
  }

  /** One numeral per disk. */
  function Numerals(ds: seq<nat>): (r: seq<Key>)
    ensures |r| == |ds|
    decreases |ds|
  {
    if ds == [] then [] else Numerals(ds[..|ds| - 1]) + [[Num(ds[|ds| - 1])]]
  }

  /** `disks.join(",")` over one peg's disks, top first. */
  function RenderPeg(ds: seq<nat>): Key {
    Join(Numerals(ds), Comma)
  }

  function RenderPegs(c: Config): (r: seq<Key>)
    ensures |r| == |c|
    decreases |c|
  {
    if c == [] then [] else RenderPegs(c[..|c| - 1]) + [RenderPeg(c[|c| - 1])]
  }

  /** `serializePegs` on the pegs' contents. */
  function Serialize(c: Config): Key {
    Join(RenderPegs(c), Bar)
  }

  /** `Number(str)` on one comma-separated piece. */
  function ToNumber(seg: Key): nat {
    if |seg| == 1 && seg[0].Num? then seg[0].n else 0
  }

  /** `.map(Number)` over the comma-separated pieces of a peg string. */
  function Numbers(parts: seq<Key>): (r: seq<nat>)
    ensures |r| == |parts|
    decreases |parts|
  {
    if parts == [] then [] else Numbers(parts[..|parts| - 1]) + [ToNumber(parts[|parts| - 1])]
  }

  /** The disks a peg string names, top first, none for the empty string. */
  function ParsePeg(seg: Key): seq<nat> {
    if seg == [] then [] else Numbers(Split(seg, Comma))
  }

  function ParsePegs(parts: seq<Key>): (r: Config)
    ensures |r| == |parts|
    decreases |parts|
  {
    if parts == [] then [] else ParsePegs(parts[..|parts| - 1]) + [ParsePeg(parts[|parts| - 1])]
  }

  /** The disk lists a key names, peg by peg. */
  function Parse(k: Key): Config {
    ParsePegs(Split(k, Bar))
  }

  /** No numeral is a separator or holds one. */
  lemma {:induction false} NumeralsAvoid(ds: seq<nat>, x: Sym)
    requires !x.Num?
    ensures forall i :: 0 <= i < |ds| ==> x !in Numerals(ds)[i]
    decreases |ds|
  {
    if ds != [] {
      NumeralsAvoid(ds[..|ds| - 1], x);
    }
  }

  /** Reading back the numerals gives the disks. */
  lemma {:induction false} NumbersNumerals(ds: seq<nat>)
    ensures Numbers(Numerals(ds)) == ds
    decreases |ds|
  {
    if ds != [] {
      var ns := Numerals(ds);
      assert ns[..|ns| - 1] == Numerals(ds[..|ds| - 1]);
      NumbersNumerals(ds[..|ds| - 1]);
      assert ds[..|ds| - 1] + [ds[|ds| - 1]] == ds;
    }
  }

  /** A peg string names exactly the disks it was written from. */
  lemma {:induction false} ParseRenderPeg(ds: seq<nat>)
    ensures ParsePeg(RenderPeg(ds)) == ds
    ensures Bar !in RenderPeg(ds)
  {
    var ns := Numerals(ds);
    NumeralsAvoid(ds, Bar);
    NumeralsAvoid(ds, Comma);
    JoinAvoids(ns, Comma, Bar);
    if ds != [] {
      assert RenderPeg(ds) != [];
      SplitJoin(ns, Comma);
      NumbersNumerals(ds);
    }
  }

  /** Reading back every peg string gives every peg, and no peg string holds a bar. */
  lemma {:induction false} ParseRenderPegs(c: Config)
    ensures ParsePegs(RenderPegs(c)) == c
    ensures forall i :: 0 <= i < |c| ==> Bar !in RenderPegs(c)[i]
    decreases |c|
  {
    if c != [] {
      var ps := RenderPegs(c);
      var c' := c[..|c| - 1];
      assert ps[..|ps| - 1] == RenderPegs(c');
      ParseRenderPegs(c');
      ParseRenderPeg(c[|c| - 1]);
      assert c' + [c[|c| - 1]] == c;
      forall i | 0 <= i < |c|
        ensures Bar !in ps[i]
      {
        if i < |c'| {
          assert ps[i] == RenderPegs(c')[i];
        }
      }
    }
  }

  /** A key names exactly the pegs it was written from. */
  lemma {:induction false} ParseSerialize(c: Config)
    requires |c| >= 1
    ensures Parse(Serialize(c)) == c
  {
    ParseRenderPegs(c);
    SplitJoin(RenderPegs(c), Bar);
  }

  /** Two boards get the same key exactly when every peg holds the same disks. */
  lemma {:induction false} SerializeInjective(c: Config, c': Config)
    requires |c| >= 1 && |c'| >= 1
    ensures Serialize(c) == Serialize(c') <==> c == c'
  {
    if Serialize(c) == Serialize(c') {
      ParseSerialize(c);
      ParseSerialize(c');
    }
  }

  function Reverse(s: seq<nat>): (r: seq<nat>)
    ensures |r| == |s|
    decreases |s|
  {
    if s == [] then [] else Reverse(s[1..]) + [s[0]]
  }

  /** `ds.forEach((disk) => stack.push(disk))` starting from a peg holding `s`. */
  function PushAll(s: seq<nat>, ds: seq<nat>): seq<nat>
    decreases |ds|
  {
    if ds == [] then s else Pushed(PushAll(s, ds[..|ds| - 1]), ds[|ds| - 1])
  }

  /** A fresh stack after pushing the listed disks bottom first (`.reverse()`). */
  function Rebuild(ds: seq<nat>): seq<nat> {
    PushAll([], Reverse(ds))
  }

  function RebuildAll(p: Config): (r: Config)
    ensures |r| == |p|
    decreases |p|
  {
    if p == [] then [] else RebuildAll(p[..|p| - 1]) + [Rebuild(p[|p| - 1])]
  }

  /** `deserializePegs` on a key: the contents of the stacks it builds. */
  function Deserialize(k: Key): Config {
    RebuildAll(Parse(k))
  }

  lemma {:induction false} RebuildAllAt(p: Config)
    ensures forall i :: 0 <= i < |p| ==> RebuildAll(p)[i] == Rebuild(p[i])
    decreases |p|
  {
    if p != [] {
      RebuildAllAt(p[..|p| - 1]);
    }
  }

  lemma {:induction false} ParsePegsAt(parts: seq<Key>)
    ensures forall i :: 0 <= i < |parts| ==> ParsePegs(parts)[i] == ParsePeg(parts[i])
    decreases |parts|
  {
    if parts != [] {
      ParsePegsAt(parts[..|parts| - 1]);
    }
  }

  /** Peg `i` of a deserialized key is rebuilt from the `i`th bar-separated piece alone. */
  lemma {:induction false} DeserializeAt(k: Key)
    ensures |Deserialize(k)| == |Split(k, Bar)|
    ensures forall i :: 0 <= i < |Split(k, Bar)| ==> Deserialize(k)[i] == Rebuild(ParsePeg(Split(k, Bar)[i]))
  {
    ParsePegsAt(Split(k, Bar));
    RebuildAllAt(Parse(k));
  }

  /** Pushing keeps a peg size-ordered, whatever is pushed. */
  lemma {:induction false} PushAllOrdered(s: seq<nat>, ds: seq<nat>)
    requires Ordered(s)
    ensures Ordered(PushAll(s, ds))
    decreases |ds|
  {
    if ds != [] {
      PushAllOrdered(s, ds[..|ds| - 1]);
    }
  }

  /** Rebuilding a size-ordered peg, bottom disk first, accepts every push. */
  lemma {:induction false} RebuildOrdered(ds: seq<nat>)
    requires Ordered(ds)
    ensures Rebuild(ds) == ds
    decreases |ds|
  {
    if ds != [] {
      var r := Reverse(ds[1..]);
      RebuildOrdered(ds[1..]);
      assert (r + [ds[0]])[..|r|] == r;
      assert PushAll([], r + [ds[0]]) == Pushed(ds[1..], ds[0]);
      assert [ds[0]] + ds[1..] == ds;
    }
  }

  /** Every rebuilt peg is size-ordered. */
  lemma {:induction false} RebuildAllOrdered(p: Config)
    ensures forall i :: 0 <= i < |p| ==> Ordered(RebuildAll(p)[i])
    decreases |p|
  {
    if p != [] {
      var p' := p[..|p| - 1];
      RebuildAllOrdered(p');
      PushAllOrdered([], Reverse(p[|p| - 1]));
      assert forall i :: 0 <= i < |p'| ==> RebuildAll(p)[i] == RebuildAll(p')[i];
    }
  }

  /** Rebuilding size-ordered pegs gives them back. */
  lemma {:induction false} RebuildAllSame(p: Config)
    requires forall i :: 0 <= i < |p| ==> Ordered(p[i])
    ensures RebuildAll(p) == p
    decreases |p|
  {
    if p != [] {
      var p' := p[..|p| - 1];
      assert forall i :: 0 <= i < |p'| ==> p'[i] == p[i];
      RebuildAllSame(p');
      RebuildOrdered(p[|p| - 1]);
      assert p' + [p[|p| - 1]] == p;
    }
  }

  /** `deserializePegs` builds one size-ordered stack per bar-separated piece. */
  lemma {:induction false} DeserializeStacks(k: Key)
    ensures |Deserialize(k)| == |Split(k, Bar)|
    ensures forall i :: 0 <= i < |Deserialize(k)| ==> Ordered(Deserialize(k)[i])
  {
    RebuildAllOrdered(Parse(k));
  }

  /** The round trip: the key of size-ordered pegs rebuilds the same pegs. */
  lemma {:induction false} RoundTrip(c: Config)
    requires |c| >= 1 && forall i :: 0 <= i < |c| ==> Ordered(c[i])
    ensures Deserialize(Serialize(c)) == c
  {
    ParseSerialize(c);
    RebuildAllSame(c);
  }

  /** The inner walk of `serializePegs`: a peg's disks read off its chain
      from the top. */
  method PegDisks(stack: Stack) returns (ds: seq<nat>)
    ensures ds == stack.disks
  {
    ds := [];
    var current := stack.disks;
    while current != []
      invariant ds + current == stack.disks
    {
      assert ds + current == ds + [current[0]] + current[1..];
      ds := ds + [current[0]];
      current := current[1..];
    }
  }

  /** `serializePegs`: join each peg's disks with commas, then join the pegs
      with bars. */
  method SerializePegs(pegs: seq<Stack>) returns (k: Key)
    ensures k == Serialize(Contents(pegs))
  {
    var parts: seq<Key> := [];
    ghost var seen: Config := [];
    var i := 0;
    while i < |pegs|
      invariant 0 <= i <= |pegs| && |seen| == i
      invariant forall j :: 0 <= j < i ==> seen[j] == pegs[j].disks
      invariant parts == RenderPegs(seen)
    {
      var ds := PegDisks(pegs[i]);
      assert (seen + [ds])[..i] == seen;
      parts := parts + [RenderPeg(ds)];
      seen := seen + [ds];
      i := i + 1;
    }
    assert seen == Contents(pegs);
    k := Join(parts, Bar);
  }

  /** The callback `deserializePegs` maps over the pieces of a key: a new
      stack, and for a non-empty piece its disks pushed bottom first. */
  method BuildPeg(seg: Key) returns (stack: Stack)
    ensures fresh(stack) && stack.Valid()
    ensures stack.disks == Rebuild(ParsePeg(seg))
  {
    stack := new Stack();
    if seg != [] {
      var ds := Reverse(ParsePeg(seg));
      var j := 0;
      while j < |ds|
        invariant 0 <= j <= |ds|
        invariant stack.Valid() && stack.disks == PushAll([], ds[..j])
      {
        var _ := stack.Push(ds[j]);
        assert ds[..j + 1][..j] == ds[..j];
        j := j + 1;
      }
      assert ds[..j] == ds;
    }
  }

  /** The `map` of `deserializePegs`: one new stack per piece. */
  method BuildPegs(parts: seq<Key>, ghost want: Config) returns (pegs: seq<Stack>)
    requires |want| == |parts|
    requires forall j {:trigger ParsePeg(parts[j])} :: 0 <= j < |parts| ==> want[j] == Rebuild(ParsePeg(parts[j]))
    ensures |pegs| == |parts|
    ensures forall j :: 0 <= j < |parts| ==> fresh(pegs[j]) && pegs[j].Valid() && pegs[j].disks == want[j]
    ensures forall j, j' :: 0 <= j < j' < |pegs| ==> pegs[j] != pegs[j']
  {
    pegs := [];
    var i := 0;
    while i < |parts|
      invariant 0 <= i <= |parts| && |pegs| == i
      invariant forall j :: 0 <= j < i ==> fresh(pegs[j]) && pegs[j].Valid() && pegs[j].disks == want[j]
      invariant forall j, j' :: 0 <= j < j' < i ==> pegs[j] != pegs[j']
    {
      var stack := BuildPeg(parts[i]);
      pegs := pegs + [stack];
      i := i + 1;
    }
  }

  /** `deserializePegs`: one new stack per bar-separated piece of the key. */
  method DeserializePegs(k: Key) returns (pegs: seq<Stack>)
    ensures |pegs| == |Split(k, Bar)|
    ensures forall i :: 0 <= i < |pegs| ==> fresh(pegs[i]) && pegs[i].Valid()
    ensures forall i, j :: 0 <= i < j < |pegs| ==> pegs[i] != pegs[j]
    ensures Contents(pegs) == Deserialize(k)
  {
    DeserializeAt(k);
    pegs := BuildPegs(Split(k, Bar), Deserialize(k));
  }
}
