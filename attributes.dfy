/**
 * Attribute presets for C-FIND query levels, and the merge of a preset with
 * caller-supplied additional and excluded attribute keywords.
 */
module Attributes {
  import opened Wrappers

  const PresetNames: seq<string> := ["minimal", "standard", "extended"]
  const Levels: seq<string> := ["patient", "study", "series", "instance"]

  // The preset table, one constant per preset and level.
  const MinimalPatient: seq<string> := ["PatientID", "PatientName"]
  const MinimalStudy: seq<string> := ["StudyInstanceUID", "PatientID", "StudyDate", "StudyDescription"]
  const MinimalSeries: seq<string> := ["SeriesInstanceUID", "StudyInstanceUID", "Modality", "SeriesNumber"]
  const MinimalInstance: seq<string> := ["SOPInstanceUID", "SeriesInstanceUID", "InstanceNumber"]
  const StandardPatient: seq<string> := ["PatientID", "PatientName", "PatientBirthDate", "PatientSex", "PatientAge"]
  const StandardStudy: seq<string> := [
    "StudyInstanceUID", "PatientID", "StudyDate", "StudyTime", "StudyDescription",
    "AccessionNumber", "ReferringPhysicianName", "StudyID",
    "NumberOfStudyRelatedSeries", "NumberOfStudyRelatedInstances"]
  const StandardSeries: seq<string> := [
    "SeriesInstanceUID", "StudyInstanceUID", "Modality", "SeriesNumber",
    "SeriesDescription", "BodyPartExamined", "PatientPosition",
    "NumberOfSeriesRelatedInstances"]
  const StandardInstance: seq<string> := [
    "SOPInstanceUID", "SeriesInstanceUID", "SOPClassUID", "InstanceNumber",
    "ContentDate", "ContentTime", "ImageType", "NumberOfFrames"]
  const ExtendedPatient: seq<string> := [
    "PatientID", "PatientName", "PatientBirthDate", "PatientSex", "PatientAge",
    "PatientWeight", "PatientAddress", "PatientComments", "IssuerOfPatientID",
    "EthnicGroup"]
  const ExtendedStudy: seq<string> := [
    "StudyInstanceUID", "PatientID", "StudyDate", "StudyTime", "StudyDescription",
    "AccessionNumber", "ReferringPhysicianName", "StudyID", "ProcedureCodeSequence",
    "NumberOfStudyRelatedSeries", "NumberOfStudyRelatedInstances", "StudyComments",
    "AdmissionID", "ModalitiesInStudy", "RequestingPhysician",
    "RequestedProcedureDescription"]
  const ExtendedSeries: seq<string> := [
    "SeriesInstanceUID", "StudyInstanceUID", "Modality", "SeriesNumber",
    "SeriesDescription", "BodyPartExamined", "PatientPosition",
    "NumberOfSeriesRelatedInstances", "SeriesDate", "SeriesTime",
    "PerformingPhysicianName", "ProtocolName", "OperatorsName",
    "PerformedProcedureStepDescription", "AnatomicalOrientationType",
    "InstitutionName"]
  const ExtendedInstance: seq<string> := [
    "SOPInstanceUID", "SeriesInstanceUID", "SOPClassUID", "InstanceNumber",
    "ContentDate", "ContentTime", "ImageType", "AcquisitionDate", "AcquisitionTime",
    "ImageComments", "NumberOfFrames", "BurnedInAnnotation", "WindowCenter",
    "WindowWidth", "ImagePositionPatient", "ImageOrientationPatient",
    "SliceLocation", "PixelSpacing", "PhotometricInterpretation", "BitsAllocated",
    "BitsStored"]

  /** `ATTRIBUTE_PRESETS[preset][level]`, `None` where a key is missing. */
  function PresetList(preset: string, level: string): Option<seq<string>> {
    if preset == "minimal" then
      if level == "patient" then Some(MinimalPatient)
      else if level == "study" then Some(MinimalStudy)
      else if level == "series" then Some(MinimalSeries)
      else if level == "instance" then Some(MinimalInstance)
      else None
    else if preset == "standard" then
      if level == "patient" then Some(StandardPatient)
      else if level == "study" then Some(StandardStudy)
      else if level == "series" then Some(StandardSeries)
      else if level == "instance" then Some(StandardInstance)
      else None
    else if preset == "extended" then
      if level == "patient" then Some(ExtendedPatient)
      else if level == "study" then Some(ExtendedStudy)
      else if level == "series" then Some(ExtendedSeries)
      else if level == "instance" then Some(ExtendedInstance)
      else None
    else None
  }

  /** Every preset defines every level, and nothing else is defined. */
  lemma PresetTableShape(preset: string, level: string)
    ensures PresetList(preset, level).Some? <==> preset in PresetNames && level in Levels
  {
  }

  /** No preset list names an attribute twice. */
  lemma PresetsNoDuplicates(preset: string, level: string)
    requires PresetList(preset, level).Some?
    ensures NoDuplicates(PresetList(preset, level).value)
  {
    if preset == "minimal" {
      MinimalNoDuplicates();
    } else if preset == "standard" {
      StandardNoDuplicates();
    } else if level == "patient" || level == "study" {
      ExtendedNoDuplicates();
    } else if level == "series" {
      ExtendedSeriesNoDuplicates();
    } else {
      ExtendedInstanceNoDuplicates();
    }
  }

  // The per-preset cases, kept apart so that each stays small.
  lemma MinimalNoDuplicates()
    ensures NoDuplicates(MinimalPatient) && NoDuplicates(MinimalStudy)
    ensures NoDuplicates(MinimalSeries) && NoDuplicates(MinimalInstance)
  {
  }

  lemma StandardNoDuplicates()
    ensures NoDuplicates(StandardPatient) && NoDuplicates(StandardStudy)
    ensures NoDuplicates(StandardSeries) && NoDuplicates(StandardInstance)
  {
  }

  lemma ExtendedNoDuplicates()
    ensures NoDuplicates(ExtendedPatient) && NoDuplicates(ExtendedStudy)
  {
  }

  // The two longest lists: the pairs within each half, then across the halves.
  lemma ExtendedSeriesNoDuplicates()
    ensures NoDuplicates(ExtendedSeries)
  {
    ExtendedSeriesLow();
    ExtendedSeriesHigh();
    ExtendedSeriesAcross();
  }

  lemma ExtendedSeriesLow()
    ensures forall i, j :: 0 <= i < j < 8 ==> ExtendedSeries[i] != ExtendedSeries[j]
  {
  }

  lemma ExtendedSeriesHigh()
    ensures forall i, j :: 8 <= i < j < 16 ==> ExtendedSeries[i] != ExtendedSeries[j]
  {
  }

  lemma ExtendedSeriesAcross()
    ensures forall i, j :: 0 <= i < 8 <= j < 16 ==> ExtendedSeries[i] != ExtendedSeries[j]
  {
  }

  lemma ExtendedInstanceNoDuplicates()
    ensures NoDuplicates(ExtendedInstance)
  {
    ExtendedInstanceLow();
    ExtendedInstanceHigh();
    ExtendedInstanceAcross();
  }

  lemma ExtendedInstanceLow()
    ensures forall i, j :: 0 <= i < j < 10 ==> ExtendedInstance[i] != ExtendedInstance[j]
  {
  }

  lemma ExtendedInstanceHigh()
    ensures forall i, j :: 10 <= i < j < 21 ==> ExtendedInstance[i] != ExtendedInstance[j]
  {
  }

  lemma ExtendedInstanceAcross()
    ensures forall i, j :: 0 <= i < 10 <= j < 21 ==> ExtendedInstance[i] != ExtendedInstance[j]
  {
  }

  /** The starting list: the named preset's list for the level, or the
      'standard' list when the preset is unknown; `None` (a KeyError) when
      the level is not one of the four. */
  function BaseList(preset: string, level: string): (r: Option<seq<string>>)
    ensures r.Some? <==> level in Levels
    ensures preset in PresetNames && level in Levels ==> r == PresetList(preset, level)
    ensures preset !in PresetNames ==> r == PresetList("standard", level)
  {
    var own := PresetList(preset, level);
    if own.Some? then own else PresetList("standard", level)
  }

  predicate NoDuplicates(s: seq<string>) {
    forall i, j :: 0 <= i < j < |s| ==> s[i] != s[j]
  }

  /** `s` is `t` with some entries removed, the rest in their order. */
  predicate IsSubsequence(s: seq<string>, t: seq<string>)
    decreases |t|
  {
    if s == [] then true
    else if t == [] then false
    else if s[|s| - 1] == t[|t| - 1] then IsSubsequence(s[..|s| - 1], t[..|t| - 1])
    else IsSubsequence(s, t[..|t| - 1])
  }

  /** `attr_list` after appending each additional attribute not yet present. */
  function Merged(base: seq<string>, extra: seq<string>): seq<string> {
    if extra == [] then base
    else
      var m := Merged(base, extra[..|extra| - 1]);
      var x := extra[|extra| - 1];
      if x in m then m else m + [x]
  }

  /** `[attr for attr in attrs if attr not in exclude]`. */
  function Without(attrs: seq<string>, exclude: seq<string>): seq<string> {
    if attrs == [] then []
    else
      var w := Without(attrs[..|attrs| - 1], exclude);
      var x := attrs[|attrs| - 1];
      if x in exclude then w else w + [x]
  }

  /** `get_attributes_for_level`. `None` for `additional_attrs` or
      `exclude_attrs` is the empty list here: the source skips both then. */
  method GetAttributesForLevel(level: string, preset: string, additional: seq<string>, exclude: seq<string>)
    returns (r: Option<seq<string>>)
    ensures r.Some? <==> level in Levels
    ensures r.Some? ==> r.value == Without(Merged(BaseList(preset, level).value, additional), exclude)
  {
    var base := BaseList(preset, level);
    if base.None? {
      return None;
    }
    var attrList := base.value;
    for i := 0 to |additional|
      invariant attrList == Merged(base.value, additional[..i])
    {
      assert additional[..i + 1][..i] == additional[..i];
      if additional[i] !in attrList {
        attrList := attrList + [additional[i]];
      }
    }
    assert additional[..|additional|] == additional;
    var kept := [];
    for i := 0 to |attrList|
      invariant kept == Without(attrList[..i], exclude)
    {
      assert attrList[..i + 1][..i] == attrList[..i];
      if attrList[i] !in exclude {
        kept := kept + [attrList[i]];
      }
    }
    assert attrList[..|attrList|] == attrList;
    return Some(kept);
  }

  /** Membership after the merge: the preset's and the additional attributes. */
  lemma {:induction false} MergedContents(base: seq<string>, extra: seq<string>, x: string)
    ensures x in Merged(base, extra) <==> x in base || x in extra
  {
    if extra != [] {
      MergedContents(base, extra[..|extra| - 1], x);
      assert extra == extra[..|extra| - 1] + [extra[|extra| - 1]];
    }
  }

  /** The merge keeps the preset list as its prefix and adds no duplicate. */
  lemma {:induction false} MergedShape(base: seq<string>, extra: seq<string>)
    ensures |base| <= |Merged(base, extra)| && Merged(base, extra)[..|base|] == base
    ensures NoDuplicates(base) ==> NoDuplicates(Merged(base, extra))
  {
    if extra != [] {
      MergedShape(base, extra[..|extra| - 1]);
    }
  }

  /** Membership after the filter: kept iff present and not excluded. */
  lemma {:induction false} WithoutContents(attrs: seq<string>, exclude: seq<string>, x: string)
    ensures x in Without(attrs, exclude) <==> x in attrs && x !in exclude
  {
    if attrs != [] {
      WithoutContents(attrs[..|attrs| - 1], exclude, x);
      assert attrs == attrs[..|attrs| - 1] + [attrs[|attrs| - 1]];
    }
  }

  /** The filter keeps the survivors in their original order. */
  lemma {:induction false} WithoutOrder(attrs: seq<string>, exclude: seq<string>)
    ensures IsSubsequence(Without(attrs, exclude), attrs)
    decreases |attrs|
  {
    if attrs != [] {
      var init := attrs[..|attrs| - 1];
      var x := attrs[|attrs| - 1];
      WithoutOrder(init, exclude);
      if x in exclude {
        SubsequenceOfLonger(Without(init, exclude), init, x);
      } else {
        assert (Without(init, exclude) + [x])[..|Without(init, exclude)|] == Without(init, exclude);
      }
    }
  }

  lemma {:induction false} SubsequenceOfLonger(s: seq<string>, t: seq<string>, x: string)
    requires IsSubsequence(s, t)
    ensures IsSubsequence(s, t + [x])
    decreases |t|, 1
  {
    if s != [] {
      assert (t + [x])[..|t|] == t;
      if s[|s| - 1] == x {
        SubsequenceDropLast(s, t);
      }
    }
  }

  /** Dropping the last element of a subsequence leaves a subsequence. */
  lemma {:induction false} SubsequenceDropLast(s: seq<string>, t: seq<string>)
    requires s != [] && IsSubsequence(s, t)
    ensures IsSubsequence(s[..|s| - 1], t)
    decreases |t|, 0
  {
    var init := s[..|s| - 1];
    if s[|s| - 1] == t[|t| - 1] {
      SubsequenceOfLonger(init, t[..|t| - 1], t[|t| - 1]);
      assert t[..|t| - 1] + [t[|t| - 1]] == t;
    } else {
      SubsequenceDropLast(s, t[..|t| - 1]);
      SubsequenceOfLonger(init, t[..|t| - 1], t[|t| - 1]);
      assert t[..|t| - 1] + [t[|t| - 1]] == t;
    }
  }

  /** The filter keeps a list without duplicates free of them. */
  lemma {:induction false} WithoutNoDuplicates(attrs: seq<string>, exclude: seq<string>)
    requires NoDuplicates(attrs)
    ensures NoDuplicates(Without(attrs, exclude))
  {
    if attrs != [] {
      var init := attrs[..|attrs| - 1];
      WithoutNoDuplicates(init, exclude);
      WithoutContents(init, exclude, attrs[|attrs| - 1]);
    }
  }

  /** What `get_attributes_for_level` promises for a known level: the result
      holds exactly the preset's and the additional attributes that are not
      excluded, holds no duplicate, and keeps the filtered merge's order. */
  lemma AttributesForLevel(level: string, preset: string, additional: seq<string>, exclude: seq<string>, x: string)
    requires level in Levels
    ensures var r := Without(Merged(BaseList(preset, level).value, additional), exclude);
      && (x in r <==> (x in BaseList(preset, level).value || x in additional) && x !in exclude)
      && NoDuplicates(r)
      && IsSubsequence(r, Merged(BaseList(preset, level).value, additional))
  {
    var base := BaseList(preset, level).value;
    var m := Merged(base, additional);
    MergedShape(base, additional);
    MergedContents(base, additional, x);
    WithoutContents(m, exclude, x);
    PresetsNoDuplicates(if preset in PresetNames then preset else "standard", level);
    WithoutNoDuplicates(m, exclude);
    WithoutOrder(m, exclude);
  }
}
