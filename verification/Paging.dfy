/** Why paging backwards gives exactly what one unlimited query would have given, although the history grows
    at the tip and may be forgotten at the other end while the pages are fetched. */
module Paging {
  import opened Sequences
  import opened Bytes
  import opened Records
  import opened Chain
  import opened PollBasic
  import opened Node

  /** The oldest position a query has to reach. */
  function Floor(points: seq<TxPoint>, q: TxPoint, refused: bool): (r: nat)
    ensures refused || q.sig == ZERO_SIGNATURE ==> r <= |points|
  {
    if refused then FirstFrom(points, q.slot)
    else if q.sig == ZERO_SIGNATURE then 0
    else IndexOf(points, q.sig) + 1
  }

  /** The cursor, if one is used, is a transaction of the history. */
  predicate CursorKnown(points: seq<TxPoint>, q: TxPoint, refused: bool) {
    refused || q.sig == ZERO_SIGNATURE || IndexOf(points, q.sig) < |points|
  }

  function Until(q: TxPoint, refused: bool): Signature {
    if refused then ZERO_SIGNATURE else q.sig
  }

  /** What is visible of the positions i..j. */
  function Segment(points: seq<TxPoint>, i: nat, j: nat, hidden: set<Signature>): seq<TxPoint>
    requires i <= j <= |points|
  {
    Visible(points[i..j], hidden)
  }

  // ---- segments ----

  lemma SegmentSplits(points: seq<TxPoint>, i: nat, j: nat, k: nat, hidden: set<Signature>)
    requires i <= j <= k <= |points|
    ensures Segment(points, i, k, hidden) == Segment(points, i, j, hidden) + Segment(points, j, k, hidden)
  {
    assert points[i..k] == points[i..j] + points[j..k];
    FilterConcat(points[i..j], points[j..k], NotHidden(hidden));
  }

  lemma SegmentOfOne(points: seq<TxPoint>, i: nat, hidden: set<Signature>)
    requires i < |points| && points[i].sig !in hidden
    ensures Segment(points, i, i + 1, hidden) == [points[i]]
  {
    FilterAll(points[i..i + 1], NotHidden(hidden));
  }

  lemma WholeSegment(points: seq<TxPoint>, m: nat, hidden: set<Signature>)
    requires m <= |points|
    ensures Segment(points, 0, m, hidden) == Visible(points[..m], hidden)
    ensures Segment(points, m, m, hidden) == []
  {
    assert points[0..m] == points[..m] && points[m..m] == [];
  }

  /** A visible transaction splits what is visible at its position. */
  lemma VisibleSplits(points: seq<TxPoint>, m: nat, hidden: set<Signature>, j: nat)
    requires PointsOk(points) && j < m <= |points| && points[j].sig !in hidden
    ensures var visible := Visible(points[..m], hidden);
            && visible == Segment(points, 0, j, hidden) + [points[j]] + Segment(points, j + 1, m, hidden)
            && IndexOf(visible, points[j].sig) == |Segment(points, 0, j, hidden)|
  {
    hide *;
    WholeSegment(points, m, hidden);
    SegmentSplits(points, 0, j, m, hidden);
    SegmentSplits(points, j, j + 1, m, hidden);
    SegmentOfOne(points, j, hidden);
    var before := Segment(points, 0, j, hidden);
    var visible := Visible(points[..m], hidden);
    assert visible == before + [points[j]] + Segment(points, j + 1, m, hidden);
    VisibleOk(points, m, hidden);
    IndexOfAt(visible, |before|);
  }

  lemma VisibleOk(points: seq<TxPoint>, m: nat, hidden: set<Signature>)
    requires PointsOk(points) && m <= |points|
    ensures PointsOk(Visible(points[..m], hidden))
  {
    FilterKeepsOrder(points[..m], NotHidden(hidden));
  }

  /** What is found among the visible transactions is a position of the history that is not hidden. */
  lemma FoundPosition(points: seq<TxPoint>, m: nat, hidden: set<Signature>, i: nat) returns (j: nat)
    requires PointsOk(points) && m <= |points| && i < |Visible(points[..m], hidden)|
    ensures j < m && points[j] == Visible(points[..m], hidden)[i] && points[j].sig !in hidden
    ensures i == |Segment(points, 0, j, hidden)|
  {
    var visible := Visible(points[..m], hidden);
    FilterMember(points[..m], NotHidden(hidden), visible[i]);
    j :| 0 <= j < m && points[..m][j] == visible[i];
    hide *;
    VisibleSplits(points, m, hidden, j);
    VisibleOk(points, m, hidden);
    IndexOfAt(visible, i);
  }

  // ---- the one-shot query ----

  /** The unlimited query, by cursor or by slot, is what is visible from one position on. */
  lemma ListedIsSegment(points: seq<TxPoint>, m: nat, hidden: set<Signature>, q: TxPoint, refused: bool)
    requires PointsOk(points) && m <= |points| && CursorKnown(points[..m], q, refused)
    requires refused || q.sig == ZERO_SIGNATURE || q.sig !in hidden
    ensures Floor(points[..m], q, refused) <= m
    ensures Listed(Visible(points[..m], hidden), q, refused)
            == Segment(points, Floor(points[..m], q, refused), m, hidden)
  {
    if refused {
      ListedFromSlot(points, m, hidden, q);
    } else if q.sig == ZERO_SIGNATURE {
      WholeSegment(points, m, hidden);
    } else {
      hide Segment, Visible, PointsOk, IndexOf;
      var j := IndexOf(points[..m], q.sig);
      VisibleSplits(points, m, hidden, j);
      var before := Segment(points, 0, j, hidden);
      assert (before + [points[j]] + Segment(points, j + 1, m, hidden))[|before| + 1..]
             == Segment(points, j + 1, m, hidden);
    }
  }

  lemma ListedFromSlot(points: seq<TxPoint>, m: nat, hidden: set<Signature>, q: TxPoint)
    requires PointsOk(points) && m <= |points|
    ensures Filter(Visible(points[..m], hidden), SlotFrom(q.slot))
            == Segment(points, FirstFrom(points[..m], q.slot), m, hidden)
  {
    hide *;
    var at := FirstFrom(points[..m], q.slot);
    WholeSegment(points, m, hidden);
    KeptOfSegment(points, m, 0, m, hidden, q.slot);
  }

  lemma FirstFromSplits(points: seq<TxPoint>, slot: u64)
    requires PointsOk(points)
    ensures forall i :: 0 <= i < |points| ==> (FirstFrom(points, slot) <= i <==> slot <= points[i].slot)
  {
    hide FirstFrom;
    var at := FirstFrom(points, slot);
    forall i | at <= i < |points|
      ensures slot <= points[i].slot
    {
      assert at < i ==> points[at].slot <= points[i].slot;
    }
  }

  /** Keeping slots at or above the cursor's cuts a segment off at the position where they begin. */
  lemma KeptOfSegment(points: seq<TxPoint>, m: nat, i: nat, j: nat, hidden: set<Signature>, slot: u64)
    requires PointsOk(points) && i <= j <= m <= |points| && FirstFrom(points[..m], slot) <= j
    ensures var at := FirstFrom(points[..m], slot);
            Filter(Segment(points, i, j, hidden), SlotFrom(slot)) == Segment(points, if i < at then at else i, j, hidden)
  {
    hide Filter, FirstFrom, Visible;
    var at := FirstFrom(points[..m], slot);
    PrefixOk(points, m);
    FirstFromSplits(points[..m], slot);
    hide PointsOk;
    var cut := if i < at then at else i;
    SegmentSplits(points, i, cut, j, hidden);
    assert forall k :: 0 <= k < m ==> points[..m][k] == points[k];
    SegmentSlots(points, i, cut, hidden);
    SegmentSlots(points, cut, j, hidden);
    hide Segment;
    FilterConcat(Segment(points, i, cut, hidden), Segment(points, cut, j, hidden), SlotFrom(slot));
    FilterNone(Segment(points, i, cut, hidden), SlotFrom(slot));
    FilterAll(Segment(points, cut, j, hidden), SlotFrom(slot));
    assert [] + Segment(points, cut, j, hidden) == Segment(points, cut, j, hidden);
  }

  lemma PrefixOk(points: seq<TxPoint>, m: nat)
    requires PointsOk(points) && m <= |points|
    ensures PointsOk(points[..m])
  {
  }

  /** The members of a segment are members of its stretch. */
  lemma SegmentSlots(points: seq<TxPoint>, i: nat, j: nat, hidden: set<Signature>)
    requires i <= j <= |points|
    ensures forall p :: p in Segment(points, i, j, hidden) ==>
              exists k :: i <= k < j && points[k] == p && p.sig !in hidden
  {
    forall p | p in Segment(points, i, j, hidden)
      ensures exists k :: i <= k < j && points[k] == p && p.sig !in hidden
    {
      FilterMember(points[i..j], NotHidden(hidden), p);
      var k :| 0 <= k < j - i && points[i..j][k] == p;
      assert points[i + k] == p;
    }
  }

  // ---- pages ----

  /** A page is a segment that ends at `end` and does not begin before `floor`: all of it down to `floor`
      when it is not full, and otherwise down to its oldest transaction. */
  ghost predicate PageDone(points: seq<TxPoint>, floor: nat, end: nat, hidden: set<Signature>,
                           page: seq<TxPoint>, from: nat)
  {
    && floor <= from <= end <= |points|
    && page == Reverse(Segment(points, from, end, hidden))
    && |page| <= 1000
    && (|page| < 1000 ==> from == floor)
    && (|page| == 1000 ==> from < end && page[999] == points[from])
  }

  /** The page before a visible position, taken from what is visible by then. */
  lemma PageIsSegment(points: seq<TxPoint>, m: nat, hidden: set<Signature>, before: Signature, until: Signature,
                      floor: nat, end: nat) returns (from: nat)
    requires PointsOk(points) && m <= |points| && floor <= end <= m
    requires PageOf(Visible(points[..m], hidden), before, until).Ok?
    requires end == if before == ZERO_SIGNATURE then m else IndexOf(points[..m], before)
    requires floor == if until == ZERO_SIGNATURE then 0 else IndexOf(points[..m], until) + 1
    ensures PageDone(points, floor, end, hidden, PageOf(Visible(points[..m], hidden), before, until).value, from)
    ensures until != ZERO_SIGNATURE ==> until !in hidden
  {
    hide Segment, Visible, IndexOf, PointsOk, PageOf, Reverse, PageDone;
    var visible := Visible(points[..m], hidden);
    var s, e := PageBounds(points, m, hidden, before, until, floor, end);
    var low := if s + MAX_SIGNATURES < e then e - MAX_SIGNATURES else s;
    PageShape(visible, before, until, s, e);
    if s + MAX_SIGNATURES <= e {
      from := FoundPosition(points, m, hidden, low);
      FloorBelow(points, floor, from, end, hidden, s, low, e);
    } else {
      from := floor;
    }
    SliceIsSegment(points, m, from, end, hidden, low, e);
    ReverseFacts(Segment(points, from, end, hidden));
    if s + MAX_SIGNATURES <= e {
      assert Segment(points, from, end, hidden)[0] == visible[low];
    }
    PageDoneIntro(points, floor, end, hidden, Reverse(Segment(points, from, end, hidden)), from);
  }

  lemma ReverseFacts(s: seq<TxPoint>)
    ensures |Reverse(s)| == |s|
    ensures s != [] ==> Reverse(s)[|s| - 1] == s[0]
  {
  }

  lemma PageDoneIntro(points: seq<TxPoint>, floor: nat, end: nat, hidden: set<Signature>, page: seq<TxPoint>, from: nat)
    requires floor <= from <= end <= |points|
    requires page == Reverse(Segment(points, from, end, hidden)) && |page| <= MAX_SIGNATURES
    requires |page| < MAX_SIGNATURES ==> from == floor
    requires |page| == MAX_SIGNATURES ==> from < end && page[MAX_SIGNATURES - 1] == points[from]
    ensures PageDone(points, floor, end, hidden, page, from)
  {
  }

  /** Where the two cursors are among what is visible. */
  lemma PageBounds(points: seq<TxPoint>, m: nat, hidden: set<Signature>, before: Signature, until: Signature,
                   floor: nat, end: nat) returns (s: nat, e: nat)
    requires PointsOk(points) && m <= |points| && floor <= end <= m
    requires PageOf(Visible(points[..m], hidden), before, until).Ok?
    requires end == if before == ZERO_SIGNATURE then m else IndexOf(points[..m], before)
    requires floor == if until == ZERO_SIGNATURE then 0 else IndexOf(points[..m], until) + 1
    ensures s == |Segment(points, 0, floor, hidden)| && e == |Segment(points, 0, end, hidden)|
    ensures s <= e <= |Visible(points[..m], hidden)|
    ensures e == if before == ZERO_SIGNATURE then |Visible(points[..m], hidden)|
                 else IndexOf(Visible(points[..m], hidden), before)
    ensures s == if until == ZERO_SIGNATURE then 0 else IndexOf(Visible(points[..m], hidden), until) + 1
    ensures until != ZERO_SIGNATURE ==> until !in hidden
  {
    hide Visible, IndexOf, PointsOk, Segment;
    var visible := Visible(points[..m], hidden);
    s, e := |Segment(points, 0, floor, hidden)|, |Segment(points, 0, end, hidden)|;
    SegmentSplits(points, 0, floor, end, hidden);
    SegmentSplits(points, 0, end, m, hidden);
    WholeSegment(points, m, hidden);
    WholeSegment(points, 0, hidden);
    if before != ZERO_SIGNATURE {
      CursorPosition(points, m, hidden, before);
    }
    if until != ZERO_SIGNATURE {
      CursorPosition(points, m, hidden, until);
      SegmentSplits(points, 0, floor - 1, floor, hidden);
      SegmentOfOne(points, floor - 1, hidden);
    }
  }

  /** A visible cursor's position, in the history and among what is visible. */
  lemma CursorPosition(points: seq<TxPoint>, m: nat, hidden: set<Signature>, sig: Signature)
    requires PointsOk(points) && m <= |points|
    requires IndexOf(Visible(points[..m], hidden), sig) < |Visible(points[..m], hidden)|
    ensures IndexOf(points[..m], sig) < m && points[IndexOf(points[..m], sig)].sig == sig && sig !in hidden
    ensures IndexOf(Visible(points[..m], hidden), sig)
            == |Segment(points, 0, IndexOf(points[..m], sig), hidden)|
  {
    hide Segment, Visible, PointsOk;
    var i := IndexOf(Visible(points[..m], hidden), sig);
    var j := FoundPosition(points, m, hidden, i);
    PrefixOk(points, m);
    assert points[..m][j] == points[j];
    IndexOfAt(points[..m], j);
  }

  lemma PageShape(visible: seq<TxPoint>, before: Signature, until: Signature, s: nat, e: nat)
    requires PageOf(visible, before, until).Ok? && s <= e <= |visible|
    requires e == if before == ZERO_SIGNATURE then |visible| else IndexOf(visible, before)
    requires s == if until == ZERO_SIGNATURE then 0 else IndexOf(visible, until) + 1
    ensures PageOf(visible, before, until).value
            == Reverse(visible[if s + MAX_SIGNATURES < e then e - MAX_SIGNATURES else s..e])
  {
    hide Reverse, IndexOf;
    if s == e {
      assert visible[s..e] == [];
      ReverseFacts([]);
    }
  }

  /** Slices of what is visible between two positions are segments. */
  lemma SliceIsSegment(points: seq<TxPoint>, m: nat, from: nat, end: nat, hidden: set<Signature>, low: nat, e: nat)
    requires from <= end <= m <= |points|
    requires low == |Segment(points, 0, from, hidden)| && e == |Segment(points, 0, end, hidden)|
    ensures low <= e <= |Visible(points[..m], hidden)|
    ensures Visible(points[..m], hidden)[low..e] == Segment(points, from, end, hidden)
  {
    hide Segment, Visible;
    WholeSegment(points, m, hidden);
    SegmentSplits(points, 0, end, m, hidden);
    SegmentSplits(points, 0, from, end, hidden);
  }

  /** A position whose rank among what is visible lies between two others' lies between them. */
  lemma FloorBelow(points: seq<TxPoint>, floor: nat, from: nat, end: nat, hidden: set<Signature>, s: nat, low: nat, e: nat)
    requires floor <= end <= |points| && from < |points| && points[from].sig !in hidden
    requires s == |Segment(points, 0, floor, hidden)| && low == |Segment(points, 0, from, hidden)|
    requires e == |Segment(points, 0, end, hidden)| && s <= low < e
    ensures floor <= from < end
  {
    hide Segment;
    if from < floor {
      SegmentSplits(points, 0, from, floor, hidden);
      SegmentSplits(points, from, from + 1, floor, hidden);
      SegmentOfOne(points, from, hidden);
    }
    if end <= from {
      SegmentSplits(points, 0, end, from, hidden);
    }
  }

  // ---- restricting a page to the cursor's slot ----

  /** What a page contributes: in a fallback only what lies at or above the cursor's slot. */
  function Kept(page: seq<TxPoint>, q: TxPoint, refused: bool): seq<TxPoint> {
    if refused then Filter(page, SlotFrom(q.slot)) else page
  }

  /** A fallback page, restricted, is a page that ends where the slot begins. */
  lemma KeptPageDone(points: seq<TxPoint>, m: nat, q: TxPoint, refused: bool, end: nat, hidden: set<Signature>,
                     page: seq<TxPoint>, from: nat) returns (cut: nat)
    requires PointsOk(points) && m <= |points| && Floor(points[..m], q, refused) <= end <= m
    requires PageDone(points, if refused then 0 else Floor(points[..m], q, refused), end, hidden, page, from)
    ensures PageDone(points, Floor(points[..m], q, refused), end, hidden, Kept(page, q, refused), cut)
    ensures |Kept(page, q, refused)| == MAX_SIGNATURES ==> Kept(page, q, refused) == page
  {
    if !refused {
      cut := from;
    } else {
      cut := KeptFallbackPage(points, m, q, end, hidden, page, from);
    }
  }

  lemma KeptFallbackPage(points: seq<TxPoint>, m: nat, q: TxPoint, end: nat, hidden: set<Signature>,
                         page: seq<TxPoint>, from: nat) returns (cut: nat)
    requires PointsOk(points) && m <= |points| && FirstFrom(points[..m], q.slot) <= end <= m
    requires PageDone(points, 0, end, hidden, page, from)
    ensures PageDone(points, FirstFrom(points[..m], q.slot), end, hidden, Filter(page, SlotFrom(q.slot)), cut)
    ensures |Filter(page, SlotFrom(q.slot))| == MAX_SIGNATURES ==> Filter(page, SlotFrom(q.slot)) == page
  {
    hide Segment, FirstFrom, PointsOk, Reverse, Filter;
    var at := FirstFrom(points[..m], q.slot);
    cut := if from < at then at else from;
    KeptOfSegment(points, m, from, end, hidden, q.slot);
    FilterReverse(Segment(points, from, end, hidden), SlotFrom(q.slot));
    ReverseFacts(Segment(points, from, end, hidden));
    ReverseFacts(Segment(points, cut, end, hidden));
    SegmentSplits(points, from, cut, end, hidden);
    if from < at && |page| == MAX_SIGNATURES {
      FirstFromSplits(points[..m], q.slot) by { PrefixOk(points, m); }
      assert points[..m][from] == points[from];
      assert page[MAX_SIGNATURES - 1] in page;
      FilterDrops(page, SlotFrom(q.slot), page[MAX_SIGNATURES - 1]);
    }
  }

  lemma FilterDrops(s: seq<TxPoint>, keep: TxPoint -> bool, x: TxPoint)
    requires x in s && !keep(x)
    ensures |Filter(s, keep)| < |s|
  {
    if x !in s[..|s| - 1] {
      assert x == Last(s);
    }
  }

  // ---- forgetting while paging ----

  ghost function Sigs(points: seq<TxPoint>, i: nat, j: nat): set<Signature>
    requires i <= j <= |points|
  {
    set k | i <= k < j :: points[k].sig
  }

  /** `hidden` is what was hidden at first together with some of what has been forgotten by now, all of it
      in the stretch i..j. */
  ghost predicate ForgottenSince(points: seq<TxPoint>, i: nat, j: nat, first: set<Signature>,
                                 now: set<Signature>, hidden: set<Signature>)
    requires i <= j <= |points|
  {
    first <= hidden <= now && hidden - first <= Sigs(points, i, j)
  }

  lemma SegmentAgrees(points: seq<TxPoint>, i: nat, j: nat, h: set<Signature>, h': set<Signature>)
    requires i <= j <= |points|
    requires forall k :: i <= k < j ==> (points[k].sig in h <==> points[k].sig in h')
    ensures Segment(points, i, j, h) == Segment(points, i, j, h')
  {
    FilterAgrees(points[i..j], NotHidden(h), NotHidden(h'));
  }

  /** An older page, taken when more had been forgotten, joins what was fetched before it: together they are
      what is visible of one history. */
  lemma SegmentsJoin(points: seq<TxPoint>, i: nat, j: nat, k: nat, first: set<Signature>,
                     now: set<Signature>, hidden: set<Signature>) returns (joined: set<Signature>)
    requires PointsOk(points) && i <= j <= k <= |points|
    requires ForgottenSince(points, j, k, first, now, hidden)
    ensures ForgottenSince(points, i, k, first, now, joined)
    ensures Segment(points, i, k, joined) == Segment(points, i, j, now) + Segment(points, j, k, hidden)
  {
    joined := hidden + (now * Sigs(points, i, j));
    hide Segment;
    SigsApart(points, i, j, k);
    SegmentSplits(points, i, j, k, joined);
    SegmentAgrees(points, i, j, joined, now);
    SegmentAgrees(points, j, k, joined, hidden);
  }

  lemma SigsApart(points: seq<TxPoint>, i: nat, j: nat, k: nat)
    requires PointsOk(points) && i <= j <= k <= |points|
    ensures forall x :: i <= x < j ==> points[x].sig in Sigs(points, i, j) && points[x].sig !in Sigs(points, j, k)
    ensures forall x :: j <= x < k ==> points[x].sig !in Sigs(points, i, j)
    ensures Sigs(points, i, j) + Sigs(points, j, k) <= Sigs(points, i, k)
  {
  }

  lemma OlderJoins(points: seq<TxPoint>, floor: nat, cut: nat, first: set<Signature>, now: set<Signature>,
                   hidden: set<Signature>)
    requires PointsOk(points) && floor <= cut <= |points|
    requires ForgottenSince(points, floor, cut, first, now, hidden)
    ensures Reverse(Segment(points, cut, |points|, first)) + Reverse(Segment(points, floor, cut, hidden))
            == Reverse(Segment(points, floor, |points|, hidden))
    ensures ForgottenSince(points, floor, |points|, first, now, hidden)
  {
    hide Segment, Reverse;
    SigsApart(points, floor, cut, |points|);
    SegmentAgrees(points, cut, |points|, first, hidden);
    SegmentSplits(points, floor, cut, |points|, hidden);
    ReverseConcat(Segment(points, floor, cut, hidden), Segment(points, cut, |points|, hidden));
  }

  // ---- the two kinds of page the tracker fetches ----

  /** The page before a known position, taken later, when the history may be longer and more of it hidden. */
  lemma LaterPage(points: seq<TxPoint>, later: seq<TxPoint>, hidden: set<Signature>, q: TxPoint, refused: bool,
                  end: nat) returns (cut: nat)
    requires points <= later && PointsOk(later) && CursorKnown(points, q, refused)
    requires Floor(points, q, refused) <= end < |points|
    requires PageOf(Visible(later[..|later|], hidden), points[end].sig, Until(q, refused)).Ok?
    ensures var page := PageOf(Visible(later[..|later|], hidden), points[end].sig, Until(q, refused)).value;
            && PageDone(points, Floor(points, q, refused), end, hidden, Kept(page, q, refused), cut)
            && (|Kept(page, q, refused)| == MAX_SIGNATURES ==> Kept(page, q, refused) == page)
  {
    hide Visible, IndexOf, PageOf, Segment, PageDone, FirstFrom, PointsOk, Kept;
    var page := PageOf(Visible(later[..|later|], hidden), points[end].sig, Until(q, refused)).value;
    var floor := if refused then 0 else Floor(points, q, refused);
    PrefixPositions(points, later, end);
    if !refused && q.sig != ZERO_SIGNATURE {
      PrefixPositions(points, later, IndexOf(points, q.sig));
    }
    var from := PageIsSegment(later, |later|, hidden, points[end].sig, Until(q, refused), floor, end);
    PageOfPrefix(points, later, floor, end, hidden, page, from);
    PointsPrefix(points, later);
    assert points[..|points|] == points;
    cut := KeptPageDone(points, |points|, q, refused, end, hidden, page, from);
  }

  lemma PointsPrefix(points: seq<TxPoint>, later: seq<TxPoint>)
    requires points <= later && PointsOk(later)
    ensures PointsOk(points)
  {
  }

  /** A position of the shorter history is found at the same place in the longer one. */
  lemma PrefixPositions(points: seq<TxPoint>, later: seq<TxPoint>, i: nat)
    requires points <= later && PointsOk(later) && i < |points|
    ensures points[i].sig != ZERO_SIGNATURE
    ensures IndexOf(points, points[i].sig) == i && IndexOf(later[..|later|], points[i].sig) == i
  {
    PointsPrefix(points, later);
    assert later[..|later|] == later && later[i] == points[i];
    IndexOfAt(points, i);
    IndexOfAt(later, i);
  }

  lemma PageOfPrefix(points: seq<TxPoint>, later: seq<TxPoint>, floor: nat, end: nat, hidden: set<Signature>,
                     page: seq<TxPoint>, from: nat)
    requires points <= later && end <= |points| && PageDone(later, floor, end, hidden, page, from)
    ensures PageDone(points, floor, end, hidden, page, from)
  {
    hide Visible, Reverse;
    assert later == points + later[|points|..];
    assert later[from..end] == points[from..end];
    assert from < end ==> later[from] == points[from];
  }

  /** One more page in front of what was fetched so far. */
  lemma OneMorePage(points: seq<TxPoint>, later: seq<TxPoint>, first: set<Signature>, now: set<Signature>,
                    q: TxPoint, refused: bool, pos: nat, top: nat, hidden: set<Signature>)
    returns (cut: nat, joined: set<Signature>)
    requires points <= later && PointsOk(later) && CursorKnown(points, q, refused)
    requires Floor(points, q, refused) <= pos <= top < |points|
    requires ForgottenSince(points, pos, top, first, now, hidden)
    requires PageOf(Visible(later[..|later|], now), points[pos].sig, Until(q, refused)).Ok?
    ensures Floor(points, q, refused) <= cut <= pos
    ensures ForgottenSince(points, cut, top, first, now, joined)
    ensures var page := PageOf(Visible(later[..|later|], now), points[pos].sig, Until(q, refused)).value;
            var kept := Kept(page, q, refused);
            && Reverse(Segment(points, pos, top, hidden)) + kept == Reverse(Segment(points, cut, top, joined))
            && |kept| <= MAX_SIGNATURES
            && (|kept| < MAX_SIGNATURES ==> cut == Floor(points, q, refused))
            && (|kept| == MAX_SIGNATURES ==>
                  cut < pos && |page| == MAX_SIGNATURES && page[MAX_SIGNATURES - 1] == points[cut])
  {
    hide Visible, PageOf, Segment, PointsOk, Reverse, Floor, Kept, ForgottenSince, CursorKnown;
    cut := LaterPage(points, later, now, q, refused, pos);
    PointsPrefix(points, later);
    joined := SegmentsJoin(points, cut, pos, top, first, now, hidden);
    ReverseConcat(Segment(points, cut, pos, now), Segment(points, pos, top, hidden));
  }

  /** The first page, from the tip down. */
  lemma FirstPage(points: seq<TxPoint>, hidden: set<Signature>, q: TxPoint, refused: bool) returns (cut: nat)
    requires PointsOk(points)
    requires PageOf(Visible(points[..|points|], hidden), ZERO_SIGNATURE, Until(q, refused)).Ok?
    ensures CursorKnown(points, q, refused) && Floor(points, q, refused) <= |points|
    ensures !refused && q.sig != ZERO_SIGNATURE ==> q.sig !in hidden
    ensures var page := PageOf(Visible(points[..|points|], hidden), ZERO_SIGNATURE, Until(q, refused)).value;
            && PageDone(points, Floor(points, q, refused), |points|, hidden, Kept(page, q, refused), cut)
            && (|Kept(page, q, refused)| == MAX_SIGNATURES ==> Kept(page, q, refused) == page)
  {
    hide Visible, IndexOf, Segment, PageDone, FirstFrom, PointsOk, Kept, Reverse;
    var page := PageOf(Visible(points[..|points|], hidden), ZERO_SIGNATURE, Until(q, refused)).value;
    var floor := if refused then 0 else Floor(points, q, refused);
    assert points[..|points|] == points;
    if !refused && q.sig != ZERO_SIGNATURE {
      UntilVisible(Visible(points[..|points|], hidden), q.sig);
      CursorPosition(points, |points|, hidden, q.sig);
    }
    hide PageOf;
    var from := PageIsSegment(points, |points|, hidden, ZERO_SIGNATURE, Until(q, refused), floor, |points|);
    cut := KeptPageDone(points, |points|, q, refused, |points|, hidden, page, from);
  }

  lemma UntilVisible(visible: seq<TxPoint>, until: Signature)
    requires until != ZERO_SIGNATURE && PageOf(visible, ZERO_SIGNATURE, until).Ok?
    ensures IndexOf(visible, until) < |visible|
  {
    hide IndexOf, Reverse;
  }

  /** The cursor itself is below everything that was forgotten while paging. */
  lemma CursorStays(points: seq<TxPoint>, q: TxPoint, first: set<Signature>, now: set<Signature>,
                    hidden: set<Signature>)
    requires PointsOk(points) && CursorKnown(points, q, false) && Floor(points, q, false) <= |points|
    requires q.sig != ZERO_SIGNATURE && q.sig !in first
    requires ForgottenSince(points, Floor(points, q, false), |points|, first, now, hidden)
    ensures q.sig !in hidden
  {
    var j := IndexOf(points, q.sig);
    SigsApart(points, j, j + 1, |points|);
    assert points[j].sig == q.sig;
  }
}
