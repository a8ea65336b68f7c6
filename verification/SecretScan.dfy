/** The chunked search for secret sentinels in runtime artifacts. */
module SecretScan {
  import opened Encoding

  type Bytes = seq<byte>

  /** What reading an artifact yields: non-empty chunks, then its end or an error. */
  datatype Artifact = Artifact(chunks: seq<Bytes>, fails: bool)

  predicate ChunksOk(chunks: seq<Bytes>) { forall i :: 0 <= i < |chunks| ==> chunks[i] != [] }

  function Content(chunks: seq<Bytes>): Bytes {
    if chunks == [] then [] else Content(chunks[..|chunks| - 1]) + chunks[|chunks| - 1]
  }

  predicate At(s: Bytes, p: Bytes, i: nat) { i + |p| <= |s| && s[i..i + |p|] == p }

  predicate Contains(s: Bytes, p: Bytes) { exists i :: 0 <= i <= |s| && At(s, p, i) }

  predicate ContainsAny(s: Bytes, a: Bytes, b: Bytes) { Contains(s, a) || Contains(s, b) }

  /** `data[-n:]`: the whole of `data` when it is shorter. */
  function Tail(data: Bytes, n: nat): Bytes {
    if n == 0 then [] else if |data| <= n then data else data[|data| - n..]
  }

  /** A pattern of at most n + 1 bytes that is not in `s` crosses or follows its end,
   *  so the last n bytes of `s` are enough to find it in `s + chunk`. */
  lemma OverlapSuffices(s: Bytes, chunk: Bytes, p: Bytes, n: nat)
    requires 1 <= |p| <= n + 1 && !Contains(s, p)
    ensures Contains(s + chunk, p) <==> Contains(Tail(s, n) + chunk, p)
  {
    var d := |s| - |Tail(s, n)|;
    if i :| 0 <= i <= |s + chunk| && At(s + chunk, p, i) {
      CrossesEnd(s, chunk, p, i);
      SamePlace(s, chunk, p, n, i - d);
    }
    if i :| 0 <= i <= |Tail(s, n) + chunk| && At(Tail(s, n) + chunk, p, i) {
      SamePlace(s, chunk, p, n, i);
    }
    hide At;
  }

  /** The carried bytes are the last ones, so places move by what was dropped. */
  lemma SamePlace(s: Bytes, chunk: Bytes, p: Bytes, n: nat, i: nat)
    requires p != []
    ensures At(Tail(s, n) + chunk, p, i) <==> At(s + chunk, p, i + |s| - |Tail(s, n)|)
  {
    var carry := Tail(s, n);
    var d := |s| - |carry|;
    assert s[d..] == carry;
    assert (s + chunk)[d..] == carry + chunk;
    hide Tail;
    if i + |p| <= |carry + chunk| {
      assert (s + chunk)[d..][i..i + |p|] == (s + chunk)[i + d..i + d + |p|];
    }
  }

  lemma CrossesEnd(s: Bytes, chunk: Bytes, p: Bytes, i: nat)
    requires p != [] && !Contains(s, p) && At(s + chunk, p, i)
    ensures i + |p| > |s|
  {
    if i + |p| <= |s| {
      assert (s + chunk)[i..i + |p|] == s[i..i + |p|];
      assert At(s, p, i);
    }
  }

  lemma TailOfTail(s: Bytes, chunk: Bytes, n: nat)
    ensures Tail(Tail(s, n) + chunk, n) == Tail(s + chunk, n)
  {
  }

  lemma NothingIn(p: Bytes)
    requires p != []
    ensures !Contains([], p)
  {
  }

  datatype Finding = Clean | Secret | Unreadable

  /** What a whole-content search says of an artifact: it holds a secret when the
   *  content read has at least one byte and contains a sentinel. */
  function Verdict(artifact: Artifact, a: Bytes, b: Bytes): Finding {
    var content := Content(artifact.chunks);
    if content != [] && ContainsAny(content, a, b) then Secret
    else if artifact.fails then Unreadable
    else Clean
  }

  /** One artifact, chunk by chunk with a carried overlap. */
  method ScanArtifact(artifact: Artifact, a: Bytes, b: Bytes) returns (finding: Finding)
    requires ChunksOk(artifact.chunks)
    ensures finding == Verdict(artifact, a, b)
  {
    var chunks := artifact.chunks;
    var longest: int := if |a| >= |b| then |a| else |b|;
    var overlap := longest - 1;
    var carry: Bytes := [];
    if chunks == [] { return if artifact.fails then Unreadable else Clean; }
    if a == [] || b == [] {
      EmptySentinel(chunks, a, b);
      return Secret;
    }
    NothingIn(a);
    NothingIn(b);
    for i := 0 to |chunks|
      invariant carry == Tail(Content(chunks[..i]), overlap)
      invariant !ContainsAny(Content(chunks[..i]), a, b)
    {
      var data := carry + chunks[i];
      NextChunk(chunks, i, a, b, overlap);
      if ContainsAny(data, a, b) {
        ContentGrows(chunks, i + 1, a, b);
        return Secret;
      }
      carry := Tail(data, overlap);
    }
    assert chunks[..|chunks|] == chunks;
    return if artifact.fails then Unreadable else Clean;
  }

  lemma EmptySentinel(chunks: seq<Bytes>, a: Bytes, b: Bytes)
    requires chunks != [] && ChunksOk(chunks) && (a == [] || b == [])
    ensures Content(chunks) != [] && ContainsAny(Content(chunks), a, b)
  {
    var c := Content(chunks);
    assert |c| >= |chunks[|chunks| - 1]|;
    assert c[0..0] == [];
    assert At(c, [], 0);
  }

  lemma NextChunk(chunks: seq<Bytes>, i: nat, a: Bytes, b: Bytes, overlap: nat)
    requires i < |chunks| && 1 <= |a| <= overlap + 1 && 1 <= |b| <= overlap + 1
    requires !ContainsAny(Content(chunks[..i]), a, b)
    ensures var data := Tail(Content(chunks[..i]), overlap) + chunks[i];
            && (ContainsAny(Content(chunks[..i + 1]), a, b) <==> ContainsAny(data, a, b))
            && Tail(data, overlap) == Tail(Content(chunks[..i + 1]), overlap)
  {
    var s := Content(chunks[..i]);
    assert chunks[..i + 1][..i] == chunks[..i];
    OverlapSuffices(s, chunks[i], a, overlap);
    OverlapSuffices(s, chunks[i], b, overlap);
    TailOfTail(s, chunks[i], overlap);
    hide Contains, Tail;
  }

  lemma ContainsGrows(s: Bytes, more: Bytes, p: Bytes)
    requires Contains(s, p)
    ensures Contains(s + more, p)
  {
    var i :| 0 <= i <= |s| && At(s, p, i);
    assert (s + more)[i..i + |p|] == s[i..i + |p|];
    assert At(s + more, p, i);
  }

  /** A sentinel in the chunks read so far is in the whole content. */
  lemma {:induction false} ContentGrows(chunks: seq<Bytes>, n: nat, a: Bytes, b: Bytes)
    requires n <= |chunks| && ContainsAny(Content(chunks[..n]), a, b) && (a != [] && b != [])
    ensures Content(chunks) != [] && ContainsAny(Content(chunks), a, b)
  {
    if n == |chunks| {
      assert chunks[..n] == chunks;
      if Content(chunks) == [] {
        NothingIn(a);
        NothingIn(b);
      }
    } else {
      var before := chunks[..|chunks| - 1];
      assert before[..n] == chunks[..n];
      ContentGrows(before, n, a, b);
      var last := chunks[|chunks| - 1];
      if Contains(Content(before), a) { ContainsGrows(Content(before), last, a); }
      if Contains(Content(before), b) { ContainsGrows(Content(before), last, b); }
    }
  }

  /** The whole scan reports each kind of finding exactly when some artifact has it,
   *  once and in sorted order. */
  method FindSecretSentinels(artifacts: seq<Artifact>, a: Bytes, b: Bytes) returns (matches: seq<string>)
    requires forall i :: 0 <= i < |artifacts| ==> ChunksOk(artifacts[i].chunks)
    ensures var secret := exists i :: 0 <= i < |artifacts| && Verdict(artifacts[i], a, b) == Secret;
            var unreadable := exists i :: 0 <= i < |artifacts| && Verdict(artifacts[i], a, b) == Unreadable;
            matches == (if secret then ["secret_runtime_artifact"] else [])
                       + (if unreadable then ["unreadable_runtime_artifact"] else [])
  {
    var found: set<Finding> := {};
    for k := 0 to |artifacts|
      invariant Secret in found <==> exists i :: 0 <= i < k && Verdict(artifacts[i], a, b) == Secret
      invariant Unreadable in found <==> exists i :: 0 <= i < k && Verdict(artifacts[i], a, b) == Unreadable
    {
      var finding := ScanArtifact(artifacts[k], a, b);
      found := found + {finding};
    }
    matches := (if Secret in found then ["secret_runtime_artifact"] else [])
      + (if Unreadable in found then ["unreadable_runtime_artifact"] else []);
  }

  /** Some stretch of the bytes is the pattern. */
  predicate Stands(s: Bytes, p: Bytes) { exists i, n :: 0 <= i <= n <= |s| && s[i..n] == p }

  /** An artifact holds a secret exactly when a byte of it was read and one of the two
   *  sentinels stands somewhere in what was read; otherwise a failed reading is told. */
  lemma VerdictExactly(artifact: Artifact, a: Bytes, b: Bytes)
    ensures var content := Content(artifact.chunks);
            && (Verdict(artifact, a, b) == Secret <==>
                  content != [] && (Stands(content, a) || Stands(content, b)))
            && (Verdict(artifact, a, b) == Unreadable <==> Verdict(artifact, a, b) != Secret && artifact.fails)
  {
    var content := Content(artifact.chunks);
    FoundExactly(content, a);
    FoundExactly(content, b);
    hide Contains, Stands;
  }

  lemma FoundExactly(s: Bytes, p: Bytes)
    ensures Contains(s, p) <==> Stands(s, p)
  {
    if Contains(s, p) {
      var i :| 0 <= i <= |s| && At(s, p, i);
      assert s[i..i + |p|] == p;
    }
    if i, n :| 0 <= i <= n <= |s| && s[i..n] == p {
      assert n == i + |p| && At(s, p, i);
    }
  }

  /** The content is the chunks one after the other. */
  lemma ContentGrowsByChunk(chunks: seq<Bytes>, last: Bytes)
    ensures Content(chunks + [last]) == Content(chunks) + last && Content([]) == []
  {
    assert (chunks + [last])[..|chunks|] == chunks;
  }
}
