/** The home page's catalog filter: sport and item-type checkboxes decide which
    item figures and which sport sections are displayed. */
module HomePage {

  datatype Checkbox = Checkbox(id: string, checked: bool)

  /** An item figure: its image's `data-type` and whether it is displayed. */
  datatype Figure = Figure(kind: string, shown: bool)

  /** A sport section: its element id, its figures, and whether it is displayed. */
  datatype Section = Section(sport: string, figures: seq<Figure>, shown: bool)

  /** The ids of the checked boxes, in order (`filter` then `map`). */
  function CheckedIds(boxes: seq<Checkbox>): (ids: seq<string>)
    ensures |ids| <= |boxes|
    ensures forall id :: id in ids <==> exists b :: b in boxes && b.checked && b.id == id
    ensures |ids| == 0 <==> forall b :: b in boxes ==> !b.checked
  {
    if |boxes| == 0 then []
    else
      var rest := CheckedIds(boxes[1..]);
      assert forall b :: b in boxes <==> b == boxes[0] || b in boxes[1..];
      (if boxes[0].checked then [boxes[0].id] else []) + rest
  }

  /** A figure is displayed when no type is selected or its type is. */
  predicate TypeSelected(types: seq<string>, kind: string) {
    |types| == 0 || kind in types
  }

  /** A section's sport passes when no sport is selected or its sport is. */
  predicate SportSelected(sports: seq<string>, sport: string) {
    |sports| == 0 || sport in sports
  }

  predicate AnyShown(figures: seq<Figure>) {
    exists j :: 0 <= j < |figures| && figures[j].shown
  }

  /** Every section, its figures displayed by type and itself displayed when its
      sport passes and some figure of it is displayed. */
  function Filtered(sections: seq<Section>, sports: seq<string>, types: seq<string>): (r: seq<Section>)
    ensures |r| == |sections|
    ensures forall i :: 0 <= i < |r| ==>
      r[i].sport == sections[i].sport && |r[i].figures| == |sections[i].figures| &&
      (r[i].shown ==> SportSelected(sports, r[i].sport) && AnyShown(r[i].figures))
    ensures forall i, j :: 0 <= i < |r| && 0 <= j < |r[i].figures| ==>
      r[i].figures[j].kind == sections[i].figures[j].kind &&
      (r[i].figures[j].shown <==> TypeSelected(types, sections[i].figures[j].kind))
  {
    seq(|sections|, i requires 0 <= i < |sections| =>
      var figures := seq(|sections[i].figures|, j requires 0 <= j < |sections[i].figures| =>
        sections[i].figures[j].(shown := TypeSelected(types, sections[i].figures[j].kind)));
      sections[i].(figures := figures, shown := SportSelected(sports, sections[i].sport) && AnyShown(figures)))
  }

  /** A figure is displayed iff no type is selected or its type is selected,
      whatever sports are selected: the figure clause of `Filtered`'s contract,
      stated for one figure with `TypeSelected` spelled out. */
  lemma FigureVisibility(sections: seq<Section>, sports: seq<string>, types: seq<string>, i: nat, j: nat)
    requires i < |sections| && j < |sections[i].figures|
    ensures var f := Filtered(sections, sports, types)[i].figures[j];
      f.kind == sections[i].figures[j].kind &&
      (f.shown <==> |types| == 0 || sections[i].figures[j].kind in types)
  {
  }

  /** Which figures are displayed does not depend on the selected sports. */
  lemma FiguresIgnoreSports(sections: seq<Section>, sports1: seq<string>, sports2: seq<string>, types: seq<string>)
    ensures forall i :: 0 <= i < |sections| ==>
      Filtered(sections, sports1, types)[i].figures == Filtered(sections, sports2, types)[i].figures
  {
  }

  /** A section is displayed iff its sport passes and at least one of its
      figures has a selected type; a section with no displayed figure is hidden. */
  lemma SectionVisibility(sections: seq<Section>, sports: seq<string>, types: seq<string>, i: nat)
    requires i < |sections|
    ensures var s := Filtered(sections, sports, types)[i];
      s.shown <==> SportSelected(sports, sections[i].sport) &&
                   exists j :: 0 <= j < |sections[i].figures| && TypeSelected(types, sections[i].figures[j].kind)
    ensures !AnyShown(Filtered(sections, sports, types)[i].figures) ==> !Filtered(sections, sports, types)[i].shown
  {
    var s := Filtered(sections, sports, types)[i];
    if exists j :: 0 <= j < |sections[i].figures| && TypeSelected(types, sections[i].figures[j].kind) {
      var j :| 0 <= j < |sections[i].figures| && TypeSelected(types, sections[i].figures[j].kind);
      assert s.figures[j].shown;
    }
  }

  /** With nothing selected every figure is displayed, and exactly the sections
      that have a figure are displayed. */
  lemma NothingSelectedShowsAll(sections: seq<Section>)
    ensures var r := Filtered(sections, [], []);
      |r| == |sections| &&
      (forall i, j :: 0 <= i < |r| && 0 <= j < |r[i].figures| ==> r[i].figures[j].shown) &&
      (forall i :: 0 <= i < |r| ==> (r[i].shown <==> |sections[i].figures| > 0))
  {
    var r := Filtered(sections, [], []);
    forall i | 0 <= i < |r|
      ensures r[i].shown <==> |sections[i].figures| > 0
    {
      if |sections[i].figures| > 0 {
        assert r[i].figures[0].shown;
      }
    }
  }

  class Filters {
    var sportBoxes: seq<Checkbox>
    var typeBoxes: seq<Checkbox>
    var sections: seq<Section>

    constructor (sportBoxes: seq<Checkbox>, typeBoxes: seq<Checkbox>, sections: seq<Section>)
      ensures this.sportBoxes == sportBoxes && this.typeBoxes == typeBoxes && this.sections == sections
    {
      this.sportBoxes := sportBoxes;
      this.typeBoxes := typeBoxes;
      this.sections := sections;
    }

    /** `filterItems`: sets each figure's display from the selected types, then
        each section's from its sport and the displays just set. */
    method FilterItems()
      modifies this`sections
      ensures sections == Filtered(old(sections), CheckedIds(sportBoxes), CheckedIds(typeBoxes))
    {
      var selectedSports := CheckedIds(sportBoxes);
      var selectedTypes := CheckedIds(typeBoxes);
      ghost var target := Filtered(old(sections), selectedSports, selectedTypes);
      var k := 0;
      while k < |sections|
        invariant 0 <= k <= |sections| == |old(sections)|
        invariant forall m :: 0 <= m < k ==> sections[m] == target[m]
        invariant forall m :: k <= m < |sections| ==> sections[m] == old(sections)[m]
      {
        var section := sections[k];
        var shouldDisplaySport := |selectedSports| == 0 || section.sport in selectedSports;
        var figures := section.figures;
        var j := 0;
        while j < |figures|
          invariant 0 <= j <= |figures| == |section.figures|
          invariant forall m :: 0 <= m < j ==>
            figures[m] == section.figures[m].(shown := TypeSelected(selectedTypes, section.figures[m].kind))
          invariant forall m :: j <= m < |figures| ==> figures[m] == section.figures[m]
        {
          var shouldDisplayItem := |selectedTypes| == 0 || figures[j].kind in selectedTypes;
          figures := figures[j := figures[j].(shown := shouldDisplayItem)];
          j := j + 1;
        }
        assert figures == target[k].figures;
        sections := sections[k := section.(figures := figures, shown := shouldDisplaySport && AnyShown(figures))];
        k := k + 1;
      }
    }

    /** The clear-filters button: unchecks every box, then filters again. */
    method ClearFilters()
      modifies this`sportBoxes, this`typeBoxes, this`sections
      ensures |sportBoxes| == |old(sportBoxes)| && |typeBoxes| == |old(typeBoxes)|
      ensures forall i :: 0 <= i < |sportBoxes| ==> sportBoxes[i] == old(sportBoxes)[i].(checked := false)
      ensures forall i :: 0 <= i < |typeBoxes| ==> typeBoxes[i] == old(typeBoxes)[i].(checked := false)
      ensures sections == Filtered(old(sections), [], [])
      ensures |sections| == |old(sections)|
      ensures forall i, j :: 0 <= i < |sections| && 0 <= j < |sections[i].figures| ==> sections[i].figures[j].shown
      ensures forall i :: 0 <= i < |sections| ==> (sections[i].shown <==> |old(sections)[i].figures| > 0)
    {
      var i := 0;
      while i < |sportBoxes|
        invariant 0 <= i <= |sportBoxes| == |old(sportBoxes)|
        invariant forall m :: 0 <= m < i ==> sportBoxes[m] == old(sportBoxes)[m].(checked := false)
        invariant forall m :: i <= m < |sportBoxes| ==> sportBoxes[m] == old(sportBoxes)[m]
        invariant typeBoxes == old(typeBoxes) && sections == old(sections)
      {
        sportBoxes := sportBoxes[i := sportBoxes[i].(checked := false)];
        i := i + 1;
      }
      i := 0;
      while i < |typeBoxes|
        invariant 0 <= i <= |typeBoxes| == |old(typeBoxes)|
        invariant forall m :: 0 <= m < i ==> typeBoxes[m] == old(typeBoxes)[m].(checked := false)
        invariant forall m :: i <= m < |typeBoxes| ==> typeBoxes[m] == old(typeBoxes)[m]
        invariant |sportBoxes| == |old(sportBoxes)| && sections == old(sections)
        invariant forall m :: 0 <= m < |sportBoxes| ==> sportBoxes[m] == old(sportBoxes)[m].(checked := false)
      {
        typeBoxes := typeBoxes[i := typeBoxes[i].(checked := false)];
        i := i + 1;
      }
      assert forall b :: b in sportBoxes ==> !b.checked;
      assert forall b :: b in typeBoxes ==> !b.checked;
      FilterItems();
      NothingSelectedShowsAll(old(sections));
    }
  }
}
