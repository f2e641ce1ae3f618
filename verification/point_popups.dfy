/** The floating score popups: a list that each operation replaces with a new one. A popup's
    id (`Date.now() + Math.random()` in the game) and the time are given by the caller. */
module PointPopups {
  import opened Common

  datatype PopupType = Token | Bomb | Combo

  datatype Popup = Popup(id: real, x: real, y: real, points: int, kind: PopupType,
                         combo: Option<int>, timestamp: int)

  /** `addPopup`; a popup with no type is a token popup and one with no combo has none. */
  function AddPopup(popups: seq<Popup>, id: real, x: real, y: real, points: int,
                    kind: Option<PopupType>, combo: Option<int>, now: int): (r: seq<Popup>)
    ensures |r| == |popups| + 1 && r[..|popups|] == popups
    ensures r[|popups|] == Popup(id, x, y, points, if kind.None? then Token else kind.value, combo, now)
  {
    popups + [Popup(id, x, y, points, if kind.None? then Token else kind.value, combo, now)]
  }

  /** `removePopup`: every popup with the id goes, every other one stays, in order. */
  function RemovePopup(popups: seq<Popup>, id: real): (r: seq<Popup>)
    ensures forall p :: p in r <==> p in popups && p.id != id
    ensures forall p :: p in popups && p.id != id ==> multiset(r)[p] == multiset(popups)[p]
    ensures (forall p :: p in popups ==> p.id != id) ==> r == popups
  {
    var keep := (p: Popup) => p.id != id;
    if forall p :: p in popups ==> p.id != id then
      FilterKeepsAll(popups, keep);
      Filter(popups, keep)
    else Filter(popups, keep)
  }

  /** Removing distributes over the parts of a list, so the order of the rest is kept. */
  lemma RemoveKeepsOrder(a: seq<Popup>, b: seq<Popup>, id: real)
    ensures RemovePopup(a + b, id) == RemovePopup(a, id) + RemovePopup(b, id)
  {
    FilterAppend(a, b, (p: Popup) => p.id != id);
  }

  /** Removing a popup just added under a fresh id gives the list back. */
  lemma RemoveUndoesAdd(popups: seq<Popup>, id: real, x: real, y: real, points: int,
                        kind: Option<PopupType>, combo: Option<int>, now: int)
    requires forall p :: p in popups ==> p.id != id
    ensures RemovePopup(AddPopup(popups, id, x, y, points, kind, combo, now), id) == popups
  {
    var added := AddPopup(popups, id, x, y, points, kind, combo, now);
    RemoveKeepsOrder(popups, [added[|popups|]], id);
    assert added == popups + [added[|popups|]];
  }

  /** `clearAllPopups`. */
  function ClearAllPopups(popups: seq<Popup>): (r: seq<Popup>)
    ensures r == []
  {
    []
  }
}
