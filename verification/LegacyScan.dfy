/** The recursive block parser against a flat reading of the file: one depth counter, no recursion. */
module LegacyScan {
  import opened Model
  import opened ModernBuild
  import opened Convert
  import opened Legacy

  // ----- sticky settings by position ---------------------------------------------------------

  /** The settings in force at line `i`: the changes of all earlier lines, whatever blocks they stand in. */
  function StickyAt(lib: Lib, lines: seq<string>, numfailures: int, i: nat): Sticky
    requires i <= |lines|
  {
    if i == 0 then Start(numfailures) else Changed(StickyAt(lib, lines, numfailures, i - 1), LineChange(lib, lines[i - 1]))
  }

  function KindOf(c: Change): Option<Legacy.Kind> {
    match c
    case NoChange => None
    case SetMaxDown(_) => Some(MaxDown)
    case SetContactOn(_) => Some(OnContact)
    case SetSource(_) => Some(Bind)
    case SetSend(_) => Some(Sends)
    case SetMin(_) => Some(Needs)
    case SetInterval(_) => Some(Every)
  }

  /** The setting of a kind that is in force, as the change that puts it there. */
  function InForce(st: Sticky, k: Legacy.Kind): Change {
    match k
    case MaxDown => SetMaxDown(st.maxDown)
    case OnContact => SetContactOn(st.contactOn)
    case Bind => if st.source.Some? then SetSource(st.source.value) else NoChange
    case Sends => if st.sendPings.Some? then SetSend(st.sendPings.value) else NoChange
    case Needs => if st.minPings.Some? then SetMin(st.minPings.value) else NoChange
    case Every => if st.interval.Some? then SetInterval(st.interval.value) else NoChange
  }

  /** Each setting at line `i` is the last one made before `i`, or the initial one if there was none. */
  lemma {:induction false} LastChangeWins(lib: Lib, lines: seq<string>, numfailures: int, i: nat, k: Legacy.Kind)
    requires i <= |lines|
    ensures
      || (&& InForce(StickyAt(lib, lines, numfailures, i), k) == InForce(Start(numfailures), k)
          && forall j :: 0 <= j < i ==> KindOf(LineChange(lib, lines[j])) != Some(k))
      || (exists j :: 0 <= j < i && LastOf(lib, lines, j, i, k) && InForce(StickyAt(lib, lines, numfailures, i), k) == LineChange(lib, lines[j]))
  {
    hide LineChange;
    if i > 0 {
      LastChangeWins(lib, lines, numfailures, i - 1, k);
      var c := LineChange(lib, lines[i - 1]);
      if KindOf(c) == Some(k) {
        assert LastOf(lib, lines, i - 1, i, k);
      } else {
        assert InForce(StickyAt(lib, lines, numfailures, i), k) == InForce(StickyAt(lib, lines, numfailures, i - 1), k);
        if j :| 0 <= j < i - 1 && LastOf(lib, lines, j, i - 1, k) && InForce(StickyAt(lib, lines, numfailures, i - 1), k) == LineChange(lib, lines[j]) {
          assert LastOf(lib, lines, j, i, k);
        }
      }
    }
  }

  /** Line `j` makes a setting of kind `k`, and no line between it and `i` does. */
  ghost predicate LastOf(lib: Lib, lines: seq<string>, j: nat, i: nat, k: Legacy.Kind)
    requires j < i <= |lines|
  {
    && KindOf(LineChange(lib, lines[j])) == Some(k)
    && forall m :: j < m < i ==> KindOf(LineChange(lib, lines[m])) != Some(k)
  }

  // ----- settings by position ----------------------------------------------------------------

  /** Line `j` makes setting `s`, and no later one of the lines does. */
  ghost predicate LastMaking(lib: Lib, lines: seq<string>, j: nat, s: Setting)
    requires j < |lines|
  {
    s in LineSettings(lib, lines[j]) && forall m :: j < m < |lines| ==> s !in LineSettings(lib, lines[m])
  }

  ghost predicate Made(lib: Lib, lines: seq<string>, s: Setting) {
    exists j :: 0 <= j < |lines| && s in LineSettings(lib, lines[j])
  }

  lemma MadeNext(lib: Lib, lines: seq<string>, line: string, s: Setting)
    ensures Made(lib, lines + [line], s) <==> Made(lib, lines, s) || s in LineSettings(lib, line)
  {
    hide LineSettings;
    var more := lines + [line];
    assert more[|lines|] == line;
    if Made(lib, lines, s) {
      var j :| 0 <= j < |lines| && s in LineSettings(lib, lines[j]);
      assert more[j] == lines[j];
    }
  }

  lemma LastStays(lib: Lib, lines: seq<string>, line: string, j: nat, s: Setting)
    requires j < |lines| && LastMaking(lib, lines, j, s) && s !in LineSettings(lib, line)
    ensures LastMaking(lib, lines + [line], j, s)
  {
    hide LineSettings;
  }

  /** Each setting of a file is what the last line that makes it says, whatever block that line stands in; a setting that
      no line makes is not overridden. */
  lemma {:induction false} LastSettingWins(lib: Lib, lines: seq<string>, s: Setting)
    ensures s in Overridden(lib, map[], lines) <==> Made(lib, lines, s)
    ensures s in Overridden(lib, map[], lines) ==>
      exists j :: 0 <= j < |lines| && LastMaking(lib, lines, j, s) && Overridden(lib, map[], lines)[s] == LineSettings(lib, lines[j])[s]
  {
    hide LineSettings, Overridden, Made;
    if lines == [] {
      NoneOverridden(lib, map[]);
      NoneMade(lib, s);
    } else {
      var front, last := lines[..|lines| - 1], lines[|lines| - 1];
      assert front + [last] == lines;
      LastSettingWins(lib, front, s);
      OverriddenNext(lib, map[], front, last);
      MadeNext(lib, front, last, s);
      if s in LineSettings(lib, last) {
        LastIsLast(lib, lines, s);
      } else if s in Overridden(lib, map[], front) {
        var j :| 0 <= j < |front| && LastMaking(lib, front, j, s) && Overridden(lib, map[], front)[s] == LineSettings(lib, front[j])[s];
        LastStays(lib, front, last, j, s);
        assert lines[j] == front[j];
      }
    }
  }

  lemma NoneMade(lib: Lib, s: Setting)
    ensures !Made(lib, [], s)
  {
  }

  lemma LastIsLast(lib: Lib, lines: seq<string>, s: Setting)
    requires lines != [] && s in LineSettings(lib, lines[|lines| - 1])
    ensures LastMaking(lib, lines, |lines| - 1, s)
  {
    hide LineSettings;
  }

  // ----- the flat reading --------------------------------------------------------------------

  /** A node and the depth it stands at. */
  datatype Entry = Entry(depth: nat, node: Node)

  /** The nodes of a forest in file order, with their depths. */
  function Entries(ts: seq<Tree>, depth: nat): seq<Entry>
    decreases ts
  {
    if ts == [] then [] else [Entry(depth, ts[0].node)] + Entries(ts[0].children, depth + 1) + Entries(ts[1..], depth)
  }

  function Ahead(es: seq<Entry>, r: Option<seq<Entry>>): Option<seq<Entry>> {
    if r.None? then None else Some(es + r.value)
  }

  /** Where the scan stands: the number of open braces, and the depth of the block being discarded, if one is. */
  datatype Place = Place(depth: nat, discarding: Option<nat>)

  function Left(p: Place): Place
    requires p.depth > 0
  {
    Place(p.depth - 1, if p.discarding == Some(p.depth) then None else p.discarding)
  }

  function Entered(p: Place, kept: bool): Place {
    Place(p.depth + 1, if p.discarding.None? && !kept then Some(p.depth + 1) else p.discarding)
  }

  /** Reads the lines from `i` on, one after the other; `None` as soon as more than 64 braces are open. A `}` with
      nothing open is ignored, and so is everything inside a block that no ping-like node opened. */
  function Scan(lib: Lib, lines: seq<string>, numfailures: int, i: nat, p: Place): Option<seq<Entry>>
    requires i <= |lines|
    decreases |lines| - i
  {
    if i == |lines| then Some([])
    else
      match ShapeOf(lines[i])
      case Nothing => Scan(lib, lines, numfailures, i + 1, p)
      case Closing => Scan(lib, lines, numfailures, i + 1, if p.depth == 0 then p else Left(p))
      case Stanza(fs, opens) =>
        var node := HostNode(lib, StickyAt(lib, lines, numfailures, i), fs);
        if opens && p.depth == MAX_DEPTH then None
        else Ahead(if node.Some? && p.discarding.None? then [Entry(p.depth, node.value)] else [],
                   Scan(lib, lines, numfailures, i + 1, if opens then Entered(p, Parents(node)) else p))
  }

  // ----- agreement ---------------------------------------------------------------------------

  lemma AheadTwice(a: seq<Entry>, b: seq<Entry>, r: Option<seq<Entry>>)
    ensures Ahead(a, Ahead(b, r)) == Ahead(a + b, r) && Ahead([], r) == r
  {
    if r.Some? {
      assert a + (b + r.value) == (a + b) + r.value;
      assert [] + r.value == r.value;
    }
  }

  lemma {:induction false} EntriesSplit(a: seq<Tree>, b: seq<Tree>, depth: nat)
    ensures Entries(a + b, depth) == Entries(a, depth) + Entries(b, depth)
    decreases a
  {
    if a == [] {
      assert a + b == b;
    } else {
      assert (a + b)[1..] == a[1..] + b;
      EntriesSplit(a[1..], b, depth);
    }
  }

  lemma PlantedEntries(node: Option<Node>, children: seq<Tree>, depth: nat)
    ensures Entries(Planted(node, children), depth)
         == if node.None? then [] else [Entry(depth, node.value)] + if Parents(node) then Entries(children, depth + 1) else []
  {
    if node.Some? {
      var t := Planted(node, children)[0];
      assert Planted(node, children) == [t] && [t][1..] == [];
      assert Entries([t], depth) == [Entry(depth, t.node)] + Entries(t.children, depth + 1) + Entries([], depth);
      assert Entries([], depth + 1) == [];
    }
  }

  /** What a place shows of a block's trees. */
  function Shown(ts: seq<Tree>, p: Place): seq<Entry> {
    if p.discarding.None? then Entries(ts, p.depth) else []
  }

  ghost predicate PlaceOk(p: Place) {
    p.depth <= MAX_DEPTH && (p.discarding.Some? ==> 0 < p.discarding.value <= p.depth)
  }

  /** Where the scan goes on after the block at `p`. */
  function Resumed(p: Place): Place {
    if p.depth == 0 then p else Left(p)
  }

  /** The scan from `i` at `p` shows the trees of the block read there and goes on behind it. */
  ghost predicate Agrees(lib: Lib, lines: seq<string>, numfailures: int, i: nat, p: Place)
    requires i <= |lines|
  {
    var r := ReadBlock(lib, lines[i..], StickyAt(lib, lines, numfailures, i), p.depth);
    if r.TooDeep? then Scan(lib, lines, numfailures, i, p) == None
    else
      var k := |lines| - |r.rest|;
      && k >= i && r.rest == lines[k..] && r.st == StickyAt(lib, lines, numfailures, k)
      && Scan(lib, lines, numfailures, i, p) == Ahead(Shown(r.trees, p), Scan(lib, lines, numfailures, k, Resumed(p)))
  }

  lemma EndAgrees(lib: Lib, lines: seq<string>, numfailures: int, p: Place)
    requires PlaceOk(p)
    ensures Agrees(lib, lines, numfailures, |lines|, p)
  {
    hide ReadBlock, StickyAt;
    ReadEnd(lib, StickyAt(lib, lines, numfailures, |lines|), p.depth);
    assert lines[|lines|..] == [];
    NoEntries(p.depth);
    AheadTwice([], [], Scan(lib, lines, numfailures, |lines|, Resumed(p)));
  }

  lemma StepSame(lib: Lib, lines: seq<string>, numfailures: int, i: nat, p: Place)
    requires i < |lines| && PlaceOk(p) && Agrees(lib, lines, numfailures, i + 1, p)
    requires ShapeOf(lines[i]).Nothing? || (ShapeOf(lines[i]).Closing? && p.depth == 0)
    ensures Agrees(lib, lines, numfailures, i, p)
  {
    hide ReadBlock, ShapeOf, Shown;
    ReadStep(lib, lines[i..], StickyAt(lib, lines, numfailures, i), p.depth);
    assert lines[i..][1..] == lines[i + 1..];
    NoStanzaNoChange(lib, lines[i]);
  }

  lemma NoStanzaNoChange(lib: Lib, line: string)
    ensures !ShapeOf(line).Stanza? ==> LineChange(lib, line).NoChange?
  {
    hide ShapeOf;
  }

  lemma StepClose(lib: Lib, lines: seq<string>, numfailures: int, i: nat, p: Place)
    requires i < |lines| && PlaceOk(p) && ShapeOf(lines[i]).Closing? && p.depth > 0
    ensures Agrees(lib, lines, numfailures, i, p)
  {
    hide ReadBlock, ShapeOf;
    ReadStep(lib, lines[i..], StickyAt(lib, lines, numfailures, i), p.depth);
    assert lines[i..][1..] == lines[i + 1..];
    NoStanzaNoChange(lib, lines[i]);
    AheadTwice([], [], Scan(lib, lines, numfailures, i + 1, Left(p)));
  }

  /** Trees before the rest of a block show before the rest. */
  lemma ShownSplit(a: seq<Tree>, b: seq<Tree>, p: Place)
    ensures Shown(a + b, p) == Shown(a, p) + Shown(b, p)
  {
    hide Entries;
    if p.discarding.None? {
      EntriesSplit(a, b, p.depth);
    }
  }

  lemma ScanStanza(lib: Lib, lines: seq<string>, numfailures: int, i: nat, p: Place)
    requires i < |lines| && ShapeOf(lines[i]).Stanza?
    ensures var node, opens := HostNode(lib, StickyAt(lib, lines, numfailures, i), ShapeOf(lines[i]).fields), ShapeOf(lines[i]).opens;
      Scan(lib, lines, numfailures, i, p)
      == if opens && p.depth == MAX_DEPTH then None
         else Ahead(Own(node, p), Scan(lib, lines, numfailures, i + 1, if opens then Entered(p, Parents(node)) else p))
  {
    hide ShapeOf, HostNode, StickyAt, Ahead, Parents, Entered;
  }

  /** What a place shows of one stanza's node. */
  function Own(node: Option<Node>, p: Place): seq<Entry> {
    if node.Some? && p.discarding.None? then [Entry(p.depth, node.value)] else []
  }

  lemma PlantedShown(node: Option<Node>, children: seq<Tree>, p: Place)
    ensures Shown(Planted(node, children), p) == Own(node, p) + Shown(children, Entered(p, Parents(node)))
    ensures Shown(Planted(node, []), p) == Own(node, p)
  {
    hide Planted, Entries;
    PlantedEntries(node, children, p.depth);
    PlantedEntries(node, [], p.depth);
    NoEntries(p.depth + 1);
  }

  lemma StickyNext(lib: Lib, lines: seq<string>, numfailures: int, i: nat)
    requires i < |lines|
    ensures StickyAt(lib, lines, numfailures, i + 1) == Changed(StickyAt(lib, lines, numfailures, i), LineChange(lib, lines[i]))
  {
    hide Changed, LineChange;
  }

  lemma StepStanza(lib: Lib, lines: seq<string>, numfailures: int, i: nat, p: Place)
    requires i < |lines| && PlaceOk(p) && ShapeOf(lines[i]).Stanza? && !ShapeOf(lines[i]).opens
    requires Agrees(lib, lines, numfailures, i + 1, p)
    ensures Agrees(lib, lines, numfailures, i, p)
  {
    hide ReadBlock, ShapeOf, HostNode, LineChange, Changed, Planted, Shown, Own, Scan, Ahead, StickyAt, Resumed;
    var st, fs := StickyAt(lib, lines, numfailures, i), ShapeOf(lines[i]).fields;
    var node := HostNode(lib, st, fs);
    ReadStep(lib, lines[i..], st, p.depth);
    assert lines[i..][1..] == lines[i + 1..];
    StickyNext(lib, lines, numfailures, i);
    ScanStanza(lib, lines, numfailures, i, p);
    PlantedShown(node, [], p);
    AheadNone(Own(node, p));
    var r := ReadBlock(lib, lines[i + 1..], StickyAt(lib, lines, numfailures, i + 1), p.depth);
    if r.Block? {
      ShownSplit(Planted(node, []), r.trees, p);
      AheadTwice(Own(node, p), Shown(r.trees, p), Scan(lib, lines, numfailures, |lines| - |r.rest|, Resumed(p)));
    }
  }

  lemma AheadNone(a: seq<Entry>)
    ensures Ahead(a, None) == None
  {
  }

  lemma NoEntries(depth: nat)
    ensures Entries([], depth) == []
  {
  }

  /** An opening stanza, up to the end of its block. */
  lemma OpenedBlock(lib: Lib, lines: seq<string>, numfailures: int, i: nat, p: Place)
    requires i < |lines| && PlaceOk(p) && p.depth < MAX_DEPTH && ShapeOf(lines[i]).Stanza? && ShapeOf(lines[i]).opens
    requires Agrees(lib, lines, numfailures, i + 1,
                    Entered(p, Parents(HostNode(lib, StickyAt(lib, lines, numfailures, i), ShapeOf(lines[i]).fields))))
    ensures var node := HostNode(lib, StickyAt(lib, lines, numfailures, i), ShapeOf(lines[i]).fields);
      var inner := ReadBlock(lib, lines[i + 1..], StickyAt(lib, lines, numfailures, i + 1), p.depth + 1);
      if inner.TooDeep? then Scan(lib, lines, numfailures, i, p) == None
      else
        var k := |lines| - |inner.rest|;
        && k > i && inner.rest == lines[k..] && inner.st == StickyAt(lib, lines, numfailures, k)
        && Scan(lib, lines, numfailures, i, p) == Ahead(Shown(Planted(node, inner.trees), p), Scan(lib, lines, numfailures, k, p))
  {
    hide ReadBlock, ShapeOf, HostNode, Planted, Shown, Own, Scan, Ahead, StickyAt, Parents;
    var node := HostNode(lib, StickyAt(lib, lines, numfailures, i), ShapeOf(lines[i]).fields);
    var inside := Entered(p, Parents(node));
    var inner := ReadBlock(lib, lines[i + 1..], StickyAt(lib, lines, numfailures, i + 1), p.depth + 1);
    assert Resumed(inside) == p;
    ScanStanza(lib, lines, numfailures, i, p);
    AheadNone(Own(node, p));
    if inner.Block? {
      PlantedShown(node, inner.trees, p);
      AheadTwice(Own(node, p), Shown(inner.trees, inside), Scan(lib, lines, numfailures, |lines| - |inner.rest|, p));
    }
  }

  /** An opening stanza: the block inside agrees at the entered place, what follows it agrees at `p`. */
  lemma StepOpen(lib: Lib, lines: seq<string>, numfailures: int, i: nat, p: Place, k: nat)
    requires i < |lines| && PlaceOk(p) && p.depth < MAX_DEPTH && ShapeOf(lines[i]).Stanza? && ShapeOf(lines[i]).opens
    requires Agrees(lib, lines, numfailures, i + 1,
                    Entered(p, Parents(HostNode(lib, StickyAt(lib, lines, numfailures, i), ShapeOf(lines[i]).fields))))
    requires var inner := ReadBlock(lib, lines[i + 1..], StickyAt(lib, lines, numfailures, i + 1), p.depth + 1);
      inner.Block? ==> k == |lines| - |inner.rest| && k <= |lines| && Agrees(lib, lines, numfailures, k, p)
    ensures Agrees(lib, lines, numfailures, i, p)
  {
    hide ReadBlock, ShapeOf, HostNode, LineChange, Changed, Planted, Shown, Scan, Ahead, StickyAt, Resumed, Entered, Parents;
    OpenedBlock(lib, lines, numfailures, i, p);
    var st := StickyAt(lib, lines, numfailures, i);
    var node := HostNode(lib, st, ShapeOf(lines[i]).fields);
    ReadStep(lib, lines[i..], st, p.depth);
    assert lines[i..][1..] == lines[i + 1..];
    StickyNext(lib, lines, numfailures, i);
    var inner := ReadBlock(lib, lines[i + 1..], StickyAt(lib, lines, numfailures, i + 1), p.depth + 1);
    if inner.Block? {
      var own := Shown(Planted(node, inner.trees), p);
      var after := ReadBlock(lib, lines[k..], StickyAt(lib, lines, numfailures, k), p.depth);
      AheadNone(own);
      if after.Block? {
        ShownSplit(Planted(node, inner.trees), after.trees, p);
        AheadTwice(own, Shown(after.trees, p), Scan(lib, lines, numfailures, |lines| - |after.rest|, Resumed(p)));
      }
    }
  }

  lemma OpenTooDeep(lib: Lib, lines: seq<string>, numfailures: int, i: nat, p: Place)
    requires i < |lines| && PlaceOk(p) && p.depth == MAX_DEPTH && ShapeOf(lines[i]).Stanza? && ShapeOf(lines[i]).opens
    ensures Agrees(lib, lines, numfailures, i, p)
  {
    hide ReadBlock, ShapeOf, HostNode, LineChange, Changed, Planted;
    var st := StickyAt(lib, lines, numfailures, i);
    ReadStep(lib, lines[i..], st, p.depth);
    ReadTooDeep(lib, lines[i..][1..], Changed(st, LineChange(lib, lines[i])), p.depth + 1);
  }

  lemma {:induction false} ScanAgrees(lib: Lib, lines: seq<string>, numfailures: int, i: nat, p: Place)
    requires i <= |lines| && PlaceOk(p)
    ensures Agrees(lib, lines, numfailures, i, p)
    decreases |lines| - i
  {
    hide ReadBlock, ShapeOf, HostNode, Agrees, StickyAt;
    if i == |lines| {
      EndAgrees(lib, lines, numfailures, p);
    } else {
      match ShapeOf(lines[i])
      case Nothing =>
        ScanAgrees(lib, lines, numfailures, i + 1, p);
        StepSame(lib, lines, numfailures, i, p);
      case Closing =>
        if p.depth == 0 {
          ScanAgrees(lib, lines, numfailures, i + 1, p);
          StepSame(lib, lines, numfailures, i, p);
        } else {
          StepClose(lib, lines, numfailures, i, p);
        }
      case Stanza(fs, opens) =>
        if !opens {
          ScanAgrees(lib, lines, numfailures, i + 1, p);
          StepStanza(lib, lines, numfailures, i, p);
        } else if p.depth == MAX_DEPTH {
          OpenTooDeep(lib, lines, numfailures, i, p);
        } else {
          var node := HostNode(lib, StickyAt(lib, lines, numfailures, i), fs);
          ScanAgrees(lib, lines, numfailures, i + 1, Entered(p, Parents(node)));
          var inner := ReadBlock(lib, lines[i + 1..], StickyAt(lib, lines, numfailures, i + 1), p.depth + 1);
          var k := if inner.Block? then |lines| - |inner.rest| else |lines|;
          ScanAgrees(lib, lines, numfailures, k, p);
          StepOpen(lib, lines, numfailures, i, p, k);
        }
    }
  }

  /** The recursive parser refuses a file iff more than 64 braces are ever open; otherwise its forest is the flat
      reading: same nodes, same depths, same order. */
  lemma BlocksAreFlat(lib: Lib, lines: seq<string>, numfailures: int)
    ensures var r, flat := ReadBlock(lib, lines, Start(numfailures), 0), Scan(lib, lines, numfailures, 0, Place(0, None));
      if r.TooDeep? then flat == None else flat == Some(Entries(r.trees, 0))
  {
    hide ReadBlock, Scan;
    ScanAgrees(lib, lines, numfailures, 0, Place(0, None));
    var r := ReadBlock(lib, lines, Start(numfailures), 0);
    assert lines[0..] == lines;
    if r.Block? {
      ScanEnd(lib, lines, numfailures, Place(0, None));
      assert Entries(r.trees, 0) + [] == Entries(r.trees, 0);
    }
  }

  lemma ScanEnd(lib: Lib, lines: seq<string>, numfailures: int, p: Place)
    ensures Scan(lib, lines, numfailures, |lines|, p) == Some([])
  {
  }

  // ----- refusal by counting -----------------------------------------------------------------

  /** Braces open after the first `i` lines; a `}` with none open counts for nothing. */
  function Braces(lines: seq<string>, i: nat): nat
    requires i <= |lines|
  {
    if i == 0 then 0
    else
      var before := Braces(lines, i - 1);
      match ShapeOf(lines[i - 1])
      case Nothing => before
      case Closing => if before == 0 then 0 else before - 1
      case Stanza(_, opens) => if opens then before + 1 else before
  }

  /** After line `i`, more than 64 braces are open at some line. */
  ghost predicate Overflows(lines: seq<string>, i: nat)
    requires i <= |lines|
  {
    exists j :: i < j <= |lines| && Braces(lines, j) > 64
  }

  lemma OverflowStep(lines: seq<string>, i: nat)
    requires i < |lines|
    ensures Overflows(lines, i) <==> Braces(lines, i + 1) > 64 || Overflows(lines, i + 1)
  {
    hide ShapeOf, Braces;
  }

  lemma BracesStep(lines: seq<string>, i: nat)
    requires i < |lines|
    ensures Braces(lines, i + 1) == match ShapeOf(lines[i])
                                    case Nothing => Braces(lines, i)
                                    case Closing => if Braces(lines, i) == 0 then 0 else Braces(lines, i) - 1
                                    case Stanza(_, opens) => if opens then Braces(lines, i) + 1 else Braces(lines, i)
  {
    hide ShapeOf;
  }

  lemma {:induction false} ScanRefuses(lib: Lib, lines: seq<string>, numfailures: int, i: nat, p: Place)
    requires i <= |lines| && PlaceOk(p) && Braces(lines, i) == p.depth
    ensures Scan(lib, lines, numfailures, i, p).None? <==> Overflows(lines, i)
    decreases |lines| - i
  {
    hide ShapeOf, HostNode, StickyAt, Braces, Overflows, Own, Parents;
    if i == |lines| {
      NoOverflowAtEnd(lines);
    } else {
      OverflowStep(lines, i);
      BracesStep(lines, i);
      match ShapeOf(lines[i])
      case Nothing => ScanRefuses(lib, lines, numfailures, i + 1, p);
      case Closing => ScanRefuses(lib, lines, numfailures, i + 1, if p.depth == 0 then p else Left(p));
      case Stanza(fs, opens) =>
        var node := HostNode(lib, StickyAt(lib, lines, numfailures, i), fs);
        if !opens {
          ScanRefuses(lib, lines, numfailures, i + 1, p);
        } else if p.depth < MAX_DEPTH {
          ScanRefuses(lib, lines, numfailures, i + 1, Entered(p, Parents(node)));
        }
    }
  }

  lemma NoOverflowAtEnd(lines: seq<string>)
    ensures !Overflows(lines, |lines|)
  {
  }

  /** The parser refuses a file iff at some line more than 64 braces are open. */
  lemma RefusedByDepthOnly(lib: Lib, lines: seq<string>, numfailures: int)
    ensures ReadBlock(lib, lines, Start(numfailures), 0).TooDeep? <==> Overflows(lines, 0)
  {
    hide ReadBlock, Scan, Overflows, Entries;
    BlocksAreFlat(lib, lines, numfailures);
    ScanRefuses(lib, lines, numfailures, 0, Place(0, None));
  }

  // ----- the flat reading determines the forest ----------------------------------------------

  ghost predicate Deeper(es: seq<Entry>, depth: nat) {
    forall i :: 0 <= i < |es| ==> es[i].depth >= depth
  }

  lemma {:induction false} EntriesDeeper(ts: seq<Tree>, depth: nat)
    ensures Deeper(Entries(ts, depth), depth)
    ensures ts != [] ==> Entries(ts, depth) != [] && Entries(ts, depth)[0] == Entry(depth, ts[0].node)
    decreases ts
  {
    if ts != [] {
      EntriesDeeper(ts[0].children, depth + 1);
      EntriesDeeper(ts[1..], depth);
    }
  }

  lemma Boundary(a: seq<Entry>, b: seq<Entry>, i: nat)
    ensures i < |a| ==> (a + b)[i] == a[i]
    ensures i == |a| && b != [] ==> (a + b)[i] == b[0]
  {
  }

  /** A run of deeper entries ends in only one place. */
  lemma UniqueSplit(a: seq<Entry>, b: seq<Entry>, a': seq<Entry>, b': seq<Entry>, depth: nat)
    requires a + b == a' + b' && Deeper(a, depth + 1) && Deeper(a', depth + 1)
    requires (b != [] ==> b[0].depth == depth) && (b' != [] ==> b'[0].depth == depth)
    ensures a == a' && b == b'
  {
    Boundary(a, b, |a|);
    Boundary(a', b', |a|);
    Boundary(a, b, |a'|);
    Boundary(a', b', |a'|);
    assert |a| == |a'|;
    assert a == (a + b)[..|a|] && b == (a + b)[|a|..];
    assert a' == (a' + b')[..|a'|] && b' == (a' + b')[|a'|..];
  }

  lemma EntriesTail(ts: seq<Tree>, depth: nat)
    requires ts != []
    ensures Entries(ts, depth) != [] && Entries(ts, depth)[0] == Entry(depth, ts[0].node)
    ensures Entries(ts, depth)[1..] == Entries(ts[0].children, depth + 1) + Entries(ts[1..], depth)
  {
  }

  /** Two forests with the same flat reading are the same. */
  lemma {:induction false} EntriesDetermine(s: seq<Tree>, t: seq<Tree>, depth: nat)
    requires Entries(s, depth) == Entries(t, depth)
    ensures s == t
    decreases s
  {
    hide Entries, Deeper;
    NoEntries(depth);
    EntriesDeeper(s, depth);
    EntriesDeeper(t, depth);
    if s != [] && t != [] {
      EntriesTail(s, depth);
      EntriesTail(t, depth);
      EntriesDeeper(s[0].children, depth + 1);
      EntriesDeeper(t[0].children, depth + 1);
      var b, b' := Entries(s[1..], depth), Entries(t[1..], depth);
      EntriesHead(s[1..], depth);
      EntriesHead(t[1..], depth);
      UniqueSplit(Entries(s[0].children, depth + 1), b, Entries(t[0].children, depth + 1), b', depth);
      EntriesDetermine(s[0].children, t[0].children, depth + 1);
      EntriesDetermine(s[1..], t[1..], depth);
      assert s[0] == t[0];
      assert s == [s[0]] + s[1..] && t == [t[0]] + t[1..];
    }
  }

  lemma EntriesHead(ts: seq<Tree>, depth: nat)
    ensures Entries(ts, depth) != [] ==> Entries(ts, depth)[0].depth == depth
  {
    if ts != [] {
      EntriesTail(ts, depth);
    }
  }
}
