/**
 * Choosing an uploader plugin: the Finder visitor and Uploader::choose.
 *
 * The traversal visits every (plugin, descriptor) pair of the registry and
 * keeps a running best descriptor, which starts as NONE with speed 0. A pair
 * replaces it when its descriptor covers the requested capabilities, has the
 * requested external and internal formats, is compatible with the context,
 * and is strictly faster than the current best.
 *
 * `Winner` is the same fold stated over prefixes of the traversal; it names
 * the index of the pair the Finder holds, so that the lemmas below can say
 * which pair wins.
 */
module Selection {
  import opened Compressor
  import opened Plugins

  /**
   * Plugin::isCompatible(name, gl). Its answer is decided by the plugin and
   * the GL state, so every statement here holds for any such relation.
   */
  type Compat = (Plugin, uint32, Context) -> bool

  /** The constraint a caller asks the selection to meet. */
  datatype Query = Query(externalFormat: uint32, internalFormat: uint32, capabilities: Caps, gl: Context)

  /** The four filters of Finder::visit, without the speed test. */
  predicate Matches(e: Entry, q: Query, compatible: Compat) {
    && Covers(e.info.capabilities, q.capabilities)
    && e.info.outputTokenType == q.externalFormat
    && e.info.tokenType == q.internalFormat
    && compatible(e.plugin, e.info.name, q.gl)
  }

  /** A pair that can win: it matches and is faster than the initial speed 0. */
  predicate Candidate(e: Entry, q: Query, compatible: Compat) {
    Matches(e, q, compatible) && e.info.speed > 0.0
  }

  /** What the Finder holds before it visits anything. */
  const Initial: Info := Named(NONE)

  function InfoAt(entries: seq<Entry>, w: Option<nat>): Info
    requires w.Some? ==> w.value < |entries|
  {
    if w.None? then Initial else entries[w.value].info
  }

  /**
   * The index of the pair the Finder holds after visiting `entries`, or None
   * while it still holds the initial descriptor.
   */
  function Winner(entries: seq<Entry>, q: Query, compatible: Compat): (w: Option<nat>)
    ensures w.Some? ==> w.value < |entries| && Candidate(entries[w.value], q, compatible)
    decreases |entries|
  {
    if entries == [] then None
    else
      var visited := entries[..|entries| - 1];
      var prior := Winner(visited, q, compatible);
      var e := entries[|entries| - 1];
      if Matches(e, q, compatible) && InfoAt(visited, prior).speed < e.info.speed then Some(|entries| - 1)
      else prior
  }

  /** The descriptor the Finder holds after visiting `entries`. */
  function Best(entries: seq<Entry>, q: Query, compatible: Compat): Info {
    InfoAt(entries, Winner(entries, q, compatible))
  }

  /**
   * The winner is the fastest matching pair, and the first among the fastest:
   * every matching pair before it is strictly slower, every matching pair
   * after it is no faster. Without a winner, no pair is a candidate.
   */
  lemma {:induction false} WinnerIsFirstFastest(entries: seq<Entry>, q: Query, compatible: Compat)
    ensures Winner(entries, q, compatible).None? ==>
      forall j :: 0 <= j < |entries| ==> !Candidate(entries[j], q, compatible)
    ensures Winner(entries, q, compatible).Some? ==>
      var w := Winner(entries, q, compatible).value;
      && (forall j :: 0 <= j < w && Matches(entries[j], q, compatible) ==> entries[j].info.speed < entries[w].info.speed)
      && (forall j :: w < j < |entries| && Matches(entries[j], q, compatible) ==> entries[j].info.speed <= entries[w].info.speed)
    decreases |entries|
  {
    if entries != [] {
      var n := |entries| - 1;
      var visited := entries[..n];
      WinnerIsFirstFastest(visited, q, compatible);
      assert forall j :: 0 <= j < n ==> visited[j] == entries[j];
    }
  }

  /** `choose` finds nothing exactly when no pair is a candidate. */
  lemma {:induction false} WinnerNoneIff(entries: seq<Entry>, q: Query, compatible: Compat)
    ensures Winner(entries, q, compatible).None? <==>
      forall j :: 0 <= j < |entries| ==> !Candidate(entries[j], q, compatible)
  {
    WinnerIsFirstFastest(entries, q, compatible);
  }

  /**
   * The characterisation is complete: a candidate that is strictly faster
   * than every earlier match and no slower than every later one is the winner.
   */
  lemma {:induction false} WinnerUnique(entries: seq<Entry>, q: Query, compatible: Compat, w: nat)
    requires w < |entries| && Candidate(entries[w], q, compatible)
    requires forall j :: 0 <= j < w && Matches(entries[j], q, compatible) ==> entries[j].info.speed < entries[w].info.speed
    requires forall j :: w < j < |entries| && Matches(entries[j], q, compatible) ==> entries[j].info.speed <= entries[w].info.speed
    ensures Winner(entries, q, compatible) == Some(w)
  {
    WinnerIsFirstFastest(entries, q, compatible);
  }

  /** On equal speeds the pair visited first is kept. */
  lemma TieKeepsFirst(entries: seq<Entry>, q: Query, compatible: Compat, i: nat, j: nat)
    requires i < j < |entries|
    requires Candidate(entries[i], q, compatible) && Matches(entries[j], q, compatible)
    requires entries[i].info.speed == entries[j].info.speed
    ensures Winner(entries, q, compatible) != Some(j)
  {
    WinnerIsFirstFastest(entries, q, compatible);
  }

  /** A pair whose speed is not above zero is never chosen. */
  lemma SlowNeverWins(entries: seq<Entry>, q: Query, compatible: Compat, j: nat)
    requires j < |entries| && entries[j].info.speed <= 0.0
    ensures Winner(entries, q, compatible) != Some(j)
  {
  }

  /** Every visited descriptor has a real name: none is at or below NONE. */
  predicate NamesAboveNone(entries: seq<Entry>) {
    forall j :: 0 <= j < |entries| ==> entries[j].info.name > NONE
  }

  /**
   * `choose` returns NONE exactly when no pair passes all five tests, and
   * otherwise the name of a candidate no slower than any other candidate.
   */
  lemma ChooseResult(entries: seq<Entry>, q: Query, compatible: Compat)
    requires NamesAboveNone(entries)
    ensures Best(entries, q, compatible).name == NONE <==>
      forall j :: 0 <= j < |entries| ==> !Candidate(entries[j], q, compatible)
    ensures Best(entries, q, compatible).name != NONE ==>
      exists w :: 0 <= w < |entries| && Best(entries, q, compatible) == entries[w].info
        && Candidate(entries[w], q, compatible)
        && forall j :: 0 <= j < |entries| && Candidate(entries[j], q, compatible) ==> entries[j].info.speed <= entries[w].info.speed
  {
    WinnerIsFirstFastest(entries, q, compatible);
    var r := Winner(entries, q, compatible);
    if r.Some? {
      var w := r.value;
      assert entries[w].info.name > NONE;
      assert forall j :: 0 <= j < |entries| && Candidate(entries[j], q, compatible) ==> entries[j].info.speed <= entries[w].info.speed by {
        forall j | 0 <= j < |entries| && Candidate(entries[j], q, compatible)
          ensures entries[j].info.speed <= entries[w].info.speed
        {
          if j < w {} else if j > w {}
        }
      }
    }
  }

  /** The registry's traversal signal (VisitorResult). */
  datatype VisitorResult = TraverseContinue | TraverseTerminate

  /** The visitor: the query it was built with and the best descriptor so far. */
  class Finder {
    const query: Query
    const compatible: Compat
    var current: Info

    constructor (query: Query, compatible: Compat)
      ensures this.query == query && this.compatible == compatible
      ensures current == Initial
    {
      this.query := query;
      this.compatible := compatible;
      current := Initial;
    }

    /** Finder::visit: adopt the descriptor if it passes all five tests; always continue. */
    method Visit(e: Entry) returns (signal: VisitorResult)
      modifies this
      ensures signal == TraverseContinue
      ensures current == if Matches(e, query, compatible) && old(current).speed < e.info.speed then e.info else old(current)
    {
      if && Covers(e.info.capabilities, query.capabilities)
         && e.info.outputTokenType == query.externalFormat
         && e.info.tokenType == query.internalFormat
         && compatible(e.plugin, e.info.name, query.gl)
         && current.speed < e.info.speed
      {
        current := e.info;
      }
      signal := TraverseContinue;
    }
  }

  /**
   * Uploader::choose: run a Finder over the registry and return the name of
   * the descriptor it ends with.
   */
  method Choose(registry: Registry, externalFormat: uint32, internalFormat: uint32,
                capabilities: Caps, gl: Context, compatible: Compat) returns (name: uint32)
    ensures name == Best(registry.Entries(), Query(externalFormat, internalFormat, capabilities, gl), compatible).name
  {
    var q := Query(externalFormat, internalFormat, capabilities, gl);
    var finder := new Finder(q, compatible);
    var entries := registry.Entries();
    var i := 0;
    var signal := TraverseContinue;
    while i < |entries| && signal == TraverseContinue
      invariant 0 <= i <= |entries|
      invariant signal == TraverseContinue
      invariant finder.query == q && finder.compatible == compatible
      invariant finder.current == Best(entries[..i], q, compatible)
    {
      assert entries[..i + 1][..i] == entries[..i];
      signal := finder.Visit(entries[i]);
      i := i + 1;
    }
    assert entries[..i] == entries;
    name := finder.current.name;
  }
}
