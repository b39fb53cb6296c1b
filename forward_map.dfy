/**
 * `_build_forward_map`: call-forward rules grouped by extension, then by
 * forward type. A later rule for the same (extension, type) pair replaces an
 * earlier one.
 */
module ForwardMap {
  import opened Wrappers
  import opened Records

  type ForwardMap = map<string, map<string, CallForward>>

  /** The map after the rules of `fs` were stored one after the other. */
  function ForwardMapOf(fs: seq<CallForward>): ForwardMap
  {
    if fs == [] then map[]
    else
      var m := ForwardMapOf(fs[..|fs| - 1]);
      var f := fs[|fs| - 1];
      var inner := if f.extension in m then m[f.extension] else map[];
      m[f.extension := inner[f.forwardType := f]]
  }

  /** `fwd_map.get(ext, {}).get(kind)`. */
  function Lookup(m: ForwardMap, ext: string, kind: string): (r: Option<CallForward>)
    ensures r.Some? <==> ext in m && kind in m[ext]
    ensures r.Some? ==> r.value == m[ext][kind]
  {
    if ext in m && kind in m[ext] then Some(m[ext][kind]) else None
  }

  predicate Matches(f: CallForward, ext: string, kind: string)
  {
    f.extension == ext && f.forwardType == kind
  }

  method BuildForwardMap(forwards: seq<CallForward>) returns (fwdMap: ForwardMap)
    ensures fwdMap == ForwardMapOf(forwards)
  {
    fwdMap := map[];
    for i := 0 to |forwards|
      invariant fwdMap == ForwardMapOf(forwards[..i])
    {
      var fwd := forwards[i];
      if fwd.extension !in fwdMap {
        fwdMap := fwdMap[fwd.extension := map[]];
      }
      fwdMap := fwdMap[fwd.extension := fwdMap[fwd.extension][fwd.forwardType := fwd]];
      assert forwards[..i + 1][..i] == forwards[..i];
    }
    assert forwards[..|forwards|] == forwards;
  }

  /** The keys are exactly the extensions that some rule names. */
  lemma {:induction false} ForwardMapKeys(fs: seq<CallForward>, ext: string)
    ensures ext in ForwardMapOf(fs) <==> exists i :: 0 <= i < |fs| && fs[i].extension == ext
  {
    if fs != [] {
      var front := fs[..|fs| - 1];
      ForwardMapKeys(front, ext);
      if ext in ForwardMapOf(front) {
        var i :| 0 <= i < |front| && front[i].extension == ext;
        assert fs[i].extension == ext;
      }
      forall i | 0 <= i < |fs| - 1 && fs[i].extension == ext
        ensures exists j :: 0 <= j < |front| && front[j].extension == ext
      {
        assert front[i] == fs[i];
      }
    }
  }

  /**
   * Last rule wins: a (extension, type) pair has an entry exactly when some
   * rule has that pair, and the entry is the last such rule.
   */
  lemma {:induction false} ForwardMapLastWins(fs: seq<CallForward>, ext: string, kind: string)
    ensures Lookup(ForwardMapOf(fs), ext, kind).None? <==>
              forall i :: 0 <= i < |fs| ==> !Matches(fs[i], ext, kind)
    ensures Lookup(ForwardMapOf(fs), ext, kind).Some? ==>
              exists i :: 0 <= i < |fs| && fs[i] == Lookup(ForwardMapOf(fs), ext, kind).value
                && Matches(fs[i], ext, kind)
                && forall j :: i < j < |fs| ==> !Matches(fs[j], ext, kind)
  {
    if fs != [] {
      var front, f := fs[..|fs| - 1], fs[|fs| - 1];
      ForwardMapLastWins(front, ext, kind);
      var here := Lookup(ForwardMapOf(fs), ext, kind);
      if Matches(f, ext, kind) {
        assert here == Some(f);
      } else {
        assert here == Lookup(ForwardMapOf(front), ext, kind);
        if here.Some? {
          var i :| 0 <= i < |front| && front[i] == here.value && Matches(front[i], ext, kind)
                   && forall j :: i < j < |front| ==> !Matches(front[j], ext, kind);
          assert fs[i] == front[i];
          assert forall j :: i < j < |fs| ==> !Matches(fs[j], ext, kind) by {
            forall j | i < j < |fs| ensures !Matches(fs[j], ext, kind) {
              if j < |front| { assert fs[j] == front[j]; }
            }
          }
        } else {
          assert forall i :: 0 <= i < |fs| ==> !Matches(fs[i], ext, kind) by {
            forall i | 0 <= i < |fs| ensures !Matches(fs[i], ext, kind) {
              if i < |front| { assert fs[i] == front[i]; }
            }
          }
        }
      }
    }
  }
}
