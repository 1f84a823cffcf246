/** Mixer paths and the mixer cache of the mx5x audio HAL (mx5x/audio/audio_route.c).

    A control is named by a number.  A control has one or more values; the cache keeps one number
    per control, on the assumption that the values of a control are all the same. */
module MixerRoute {
  import opened Sequences
  import opened Wrappers

  const INITIAL_MIXER_PATH_SIZE := 8

  datatype Setting = Setting(ctl: nat, value: int)

  predicate DistinctControls(s: seq<Setting>) {
    forall i, j :: 0 <= i < j < |s| ==> s[i].ctl != s[j].ctl
  }

  predicate Sets(s: seq<Setting>, ctl: nat) {
    exists i :: 0 <= i < |s| && s[i].ctl == ctl
  }

  // Setting k of sub is the first of its control, in path and sub together.
  predicate IsNew(path: seq<Setting>, sub: seq<Setting>, k: nat)
    requires k < |sub|
  {
    !Sets(path + sub[..k], sub[k].ctl)
  }

  // ---- paths ------------------------------------------------------------------------------------

  class MixerPath {
    var setting: array<Setting>      // its Length is what realloc really provided
    var size: nat
    var length: nat

    predicate Valid()
      reads this, setting
    {
      length <= size == setting.Length && DistinctControls(setting[..length])
    }

    function Contents(): seq<Setting>
      requires length <= setting.Length
      reads this, setting
    {
      setting[..length]
    }

    constructor ()
      ensures Valid() && Contents() == [] && size == 0 && fresh(setting)
    {
      setting := new Setting[0];
      size, length := 0, 0;
    }

    method SettingExists(s: Setting) returns (found: bool)
      requires Valid()
      ensures found == Sets(Contents(), s.ctl)
    {
      var i := 0;
      while i < length
        invariant i <= length
        invariant forall k :: 0 <= k < i ==> setting[k].ctl != s.ctl
      {
        if setting[i].ctl == s.ctl {
          assert Contents()[i].ctl == s.ctl;
          return true;
        }
        i := i + 1;
      }
      return false;
    }

    // realloc; alloc says whether there is memory for it.
    method Realloc(alloc: bool) returns (ok: bool)
      requires length <= setting.Length <= size
      modifies this`setting
      ensures length <= setting.Length && ok == alloc && Contents() == old(Contents())
      ensures if ok then fresh(setting) && setting.Length == size else setting == old(setting)
    {
      if !alloc {
        return false;
      }
      var grown := new Setting[size];
      forall i | 0 <= i < length {
        grown[i] := setting[i];
      }
      setting := grown;
      assert setting[..length] == old(setting[..length]);
      return true;
    }

    // A failed realloc leaves size claiming room that is not there: Valid is lost, and the next
    // setting would go past the end of the array.  Any other outcome keeps Valid.
    method AddSetting(s: Setting, alloc: bool) returns (ret: int)
      requires Valid()
      modifies this, setting
      ensures length <= setting.Length && (setting == old(setting) || fresh(setting))
      ensures ret == 0 <==> !Sets(old(Contents()), s.ctl) && (old(length < size) || alloc)
      ensures ret == 0 ==> Contents() == old(Contents()) + [s]
      ensures ret == 0 && old(length == size) ==> size == if old(size) == 0 then 8 else 2 * old(size)
      ensures old(length < size) ==> size == old(size) && setting == old(setting)
      ensures ret != 0 ==> ret == -1 && Contents() == old(Contents())
      ensures Valid() <==> ret == 0 || Sets(old(Contents()), s.ctl)
      ensures !Valid() ==> length == setting.Length < size == if old(size) == 0 then 8 else 2 * old(size)
    {
      var found := SettingExists(s);
      if found {
        return -1;
      }
      if size <= length {
        if size == 0 {
          size := INITIAL_MIXER_PATH_SIZE;
        } else {
          size := size * 2;
        }
        var ok := Realloc(alloc);
        if !ok {
          return -1;
        }
      }
      setting[length] := s;
      length := length + 1;
      assert Contents() == old(Contents()) + [s];
      AppendDistinct(old(Contents()), s);
      return 0;
    }

    // Nesting stops at the first control that is already set; what came before it stays.  A path
    // may even be nested in itself.  allocs(k) says whether there is memory for setting k.
    method AddPath(sub: MixerPath, allocs: nat -> bool) returns (ret: int, added: nat)
      requires Valid() && sub.Valid() && (sub != this ==> sub.setting != setting)
      modifies this, setting
      ensures length <= setting.Length && added <= |old(sub.Contents())|
      ensures Contents() == old(Contents()) + old(sub.Contents())[..added]
      ensures forall k :: 0 <= k < added ==> IsNew(old(Contents()), old(sub.Contents()), k)
      ensures ret == if added == |old(sub.Contents())| then 0 else -1
      ensures Valid() <==> ret == 0 || !IsNew(old(Contents()), old(sub.Contents()), added)
    {
      ghost var path, other := Contents(), sub.Contents();
      added := 0;
      while added < sub.length
        invariant added <= |other| && Valid()
        invariant sub == this ==> added == 0
        invariant sub != this ==> sub.setting != setting && sub.setting == old(sub.setting)
        invariant sub.Valid() && sub.Contents() == other
        invariant setting == old(setting) || fresh(setting)
        invariant Contents() == path + other[..added]
        invariant forall k :: 0 <= k < added ==> IsNew(path, other, k)
        decreases |other| - added
      {
        if sub == this {
          assert Contents()[0].ctl == sub.setting[added].ctl;
        }
        ret := AddSetting(sub.setting[added], allocs(added));
        if ret < 0 {
          return;
        }
        added := added + 1;
      }
      return 0, added;
    }
  }

  // The first setting of a path, and no memory for it.
  method NoMemoryForASetting() returns (path: MixerPath)
    ensures !path.Valid() && path.size == INITIAL_MIXER_PATH_SIZE && path.setting.Length == 0
  {
    path := new MixerPath();
    var ret := path.AddSetting(Setting(0, 1), false);
  }

  lemma AppendDistinct(s: seq<Setting>, x: Setting)
    requires DistinctControls(s)
    ensures DistinctControls(s + [x]) <==> !Sets(s, x.ctl)
  {
    if Sets(s, x.ctl) {
      var i :| 0 <= i < |s| && s[i].ctl == x.ctl;
      assert (s + [x])[i].ctl == (s + [x])[|s|].ctl;
    }
  }

  // The path list of audio_route, by name.
  class PathList {
    var names: array<string>
    var size: nat
    var num: nat

    ghost predicate Valid()
      reads this, names
    {
      num <= size == names.Length && forall i, j :: 0 <= i < j < num ==> names[i] != names[j]
    }

    ghost function Names(): seq<string>
      requires num <= names.Length
      reads this, names
    {
      names[..num]
    }

    constructor ()
      ensures Valid() && Names() == [] && size == 0 && fresh(names)
    {
      names := new string[0];
      size, num := 0, 0;
    }

    method GetByName(name: string) returns (found: Option<nat>)
      requires Valid()
      ensures found == None <==> name !in Names()
      ensures found.Some? ==> found.value < num && names[found.value] == name
    {
      var i := 0;
      while i < num
        invariant i <= num && name !in names[..i]
      {
        if names[i] == name {
          return Some(i);
        }
        i := i + 1;
      }
      return None;
    }

    // The position of the new path, or None for NULL.
    method Create(name: string, alloc: bool) returns (path: Option<nat>)
      requires Valid()
      modifies this, names
      ensures num <= names.Length
      ensures path.Some? <==> name !in old(Names()) && (old(num < size) || alloc)
      ensures path.Some? ==> path.value == old(num) && Names() == old(Names()) + [name]
      ensures path.Some? && old(num == size) ==> size == if old(size) == 0 then 8 else 2 * old(size)
      ensures old(num < size) ==> size == old(size) && names == old(names)
      ensures path.None? ==> Names() == old(Names())
      ensures Valid() <==> path.Some? || name in old(Names())
      ensures !Valid() ==> num == names.Length < size == if old(size) == 0 then 8 else 2 * old(size)
    {
      var found := GetByName(name);
      if found.Some? {
        return None;
      }
      if size <= num {
        if size == 0 {
          size := INITIAL_MIXER_PATH_SIZE;
        } else {
          size := size * 2;
        }
        if !alloc {
          return None;
        }
        var grown := new string[size];
        forall i | 0 <= i < num {
          grown[i] := names[i];
        }
        names := grown;
      }
      assert names[..num] == old(Names());
      names[num] := name;
      num := num + 1;
      assert names[..num] == old(Names()) + [name];
      assert forall i :: 0 <= i < num - 1 ==> names[i] in old(Names());
      return Some(num - 1);
    }
  }

  method NoMemoryForAPath(name: string) returns (list: PathList)
    ensures !list.Valid() && list.size == INITIAL_MIXER_PATH_SIZE && list.names.Length == 0
  {
    list := new PathList();
    var path := list.Create(name, false);
  }

  // ---- the cache ----------------------------------------------------------------------------------

  // new_value of every control after a run of settings.
  function Applied(ctls: seq<nat>, values: seq<int>, settings: seq<Setting>): (r: seq<int>)
    requires |ctls| == |values|
    ensures |r| == |values|
    decreases |settings|
  {
    if settings == [] then values
    else
      var before := Applied(ctls, values, settings[..|settings| - 1]);
      var last := settings[|settings| - 1];
      seq(|ctls|, i requires 0 <= i < |ctls| => if ctls[i] == last.ctl then last.value else before[i])
  }

  // The value the last setting of a control gives it.
  function LastSetting(settings: seq<Setting>, ctl: nat): Option<int> {
    if settings == [] then None
    else if settings[|settings| - 1].ctl == ctl then Some(settings[|settings| - 1].value)
    else LastSetting(settings[..|settings| - 1], ctl)
  }

  // What LastSetting says: the setting right before k, if it is one of the control and none comes after.
  lemma {:induction false} LastSettingIs(settings: seq<Setting>, ctl: nat, k: nat)
    requires k <= |settings| && (forall j :: k <= j < |settings| ==> settings[j].ctl != ctl)
    requires k > 0 ==> settings[k - 1].ctl == ctl
    ensures LastSetting(settings, ctl) == if k == 0 then None else Some(settings[k - 1].value)
  {
    if k == |settings| {
    } else {
      LastSettingIs(settings[..|settings| - 1], ctl, k);
    }
  }

  lemma {:induction false} LastOfBoth(a: seq<Setting>, b: seq<Setting>, ctl: nat)
    ensures LastSetting(a + b, ctl) == if LastSetting(b, ctl).Some? then LastSetting(b, ctl) else LastSetting(a, ctl)
  {
    if b == [] {
      assert a + b == a;
    } else {
      assert (a + b)[..|a + b| - 1] == a + b[..|b| - 1];
      LastOfBoth(a, b[..|b| - 1], ctl);
    }
  }

  // Of several paths the last one that sets the control decides.
  lemma {:induction false} LastPathWins(paths: seq<seq<Setting>>, ctl: nat, k: nat)
    requires k <= |paths| && (forall j :: k <= j < |paths| ==> LastSetting(paths[j], ctl).None?)
    requires k > 0 ==> LastSetting(paths[k - 1], ctl).Some?
    ensures LastSetting(Flatten(paths), ctl) == if k == 0 then None else LastSetting(paths[k - 1], ctl)
  {
    if paths == [] {
    } else {
      var n := |paths| - 1;
      LastOfBoth(Flatten(paths[..n]), paths[n], ctl);
      if k <= n {
        LastPathWins(paths[..n], ctl, k);
      }
    }
  }

  function Flatten(paths: seq<seq<Setting>>): seq<Setting> {
    if paths == [] then [] else Flatten(paths[..|paths| - 1]) + paths[|paths| - 1]
  }

  predicate Known(ctls: seq<nat>, settings: seq<Setting>) {
    forall s :: s in settings ==> s.ctl in ctls
  }

  lemma {:induction false} LastWins(ctls: seq<nat>, values: seq<int>, settings: seq<Setting>, i: nat)
    requires |ctls| == |values| && i < |ctls|
    ensures Applied(ctls, values, settings)[i] ==
      match LastSetting(settings, ctls[i]) case Some(v) => v case None => values[i]
    decreases |settings|
  {
    if settings == [] {
    } else {
      LastWins(ctls, values, settings[..|settings| - 1], i);
    }
  }

  lemma {:induction false} AppliedInTurn(ctls: seq<nat>, values: seq<int>, a: seq<Setting>, b: seq<Setting>)
    requires |ctls| == |values|
    ensures Applied(ctls, Applied(ctls, values, a), b) == Applied(ctls, values, a + b)
    decreases |b|
  {
    if b == [] {
      assert a + b == a;
    } else {
      var b' := b[..|b| - 1];
      AppliedInTurn(ctls, values, a, b');
      assert (a + b)[..|a + b| - 1] == a + b' && (a + b)[|a + b| - 1] == b[|b| - 1];
    }
  }

  predicate AllAre(values: seq<int>, v: int) {
    forall k :: 0 <= k < |values| ==> values[k] == v
  }

  predicate Uniform(values: seq<int>) {
    forall k :: 0 <= k < |values| ==> values[k] == values[0]
  }

  // The positions at which two value tables differ, in order.
  function Changed(a: seq<int>, b: seq<int>): (r: seq<nat>)
    requires |a| == |b|
    ensures forall i :: i in r <==> 0 <= i < |a| && a[i] != b[i]
    ensures forall j, k :: 0 <= j < k < |r| ==> r[j] < r[k]
  {
    if a == [] then []
    else
      var n := |a| - 1;
      var before := Changed(a[..n], b[..n]);
      assert forall j :: 0 <= j < |before| ==> before[j] in before;
      before + if a[n] != b[n] then [n] else []
  }

  class AudioRoute {
    const ctls: seq<nat>
    const oldValue: array<int>
    const newValue: array<int>
    const resetValue: array<int>
    const hardware: array<seq<int>>
    var written: seq<nat>            // the controls written so far, in order

    ghost predicate Shape()
      reads this, oldValue, newValue, resetValue, hardware
    {
      && oldValue.Length == newValue.Length == resetValue.Length == hardware.Length == |ctls|
      && oldValue != newValue && oldValue != resetValue && newValue != resetValue
      && Distinct(ctls)
      && forall i :: 0 <= i < |ctls| ==> hardware[i] != []
    }

    // The cache agrees with the first value of every control.
    ghost predicate Valid()
      reads this, oldValue, newValue, resetValue, hardware
    {
      Shape() && forall i :: 0 <= i < |ctls| ==> oldValue[i] == hardware[i][0]
    }

    // alloc_mixer_state
    constructor (ctls: seq<nat>, values: seq<seq<int>>)
      requires Distinct(ctls) && |values| == |ctls| && forall v :: v in values ==> v != []
      ensures Valid() && this.ctls == ctls && hardware[..] == values && newValue[..] == oldValue[..]
      ensures written == []
      ensures fresh(oldValue) && fresh(newValue) && fresh(resetValue) && fresh(hardware)
    {
      var n := |ctls|;
      this.ctls, written := ctls, [];
      oldValue := new int[n](i requires 0 <= i < n => assert values[i] in values; values[i][0]);
      newValue := new int[n](i requires 0 <= i < n => assert values[i] in values; values[i][0]);
      resetValue := new int[n](_ => 0);
      hardware := new seq<int>[n](i requires 0 <= i < n => values[i]);
      new;
      assert hardware[..] == values && newValue[..] == oldValue[..];
      assert forall i :: 0 <= i < n ==> values[i] in values;
    }

    // The position of the control, or the end of the list.
    method Locate(ctl: nat) returns (j: nat)
      ensures j <= |ctls| && (j < |ctls| <==> ctl in ctls) && (j < |ctls| ==> ctls[j] == ctl)
    {
      j := 0;
      assert ctls[..|ctls|] == ctls;
      while j < |ctls|
        invariant j <= |ctls| && ctl !in ctls[..j]
      {
        if ctls[j] == ctl {
          break;
        }
        j := j + 1;
      }
    }

    // A setting whose control is not in the list is written past the end of the table, which no
    // control sees; inside says that there was none.
    method PathApply(path: seq<Setting>) returns (inside: bool)
      requires Shape()
      modifies newValue
      ensures newValue[..] == Applied(ctls, old(newValue[..]), path) && inside == Known(ctls, path)
    {
      inside := true;
      ghost var values := newValue[..];
      var i := 0;
      assert path[..0] == [];
      while i < |path|
        invariant i <= |path| && newValue[..] == Applied(ctls, values, path[..i])
        invariant inside == Known(ctls, path[..i])
      {
        var j := Locate(path[i].ctl);
        ghost var before := newValue[..];
        if j < |ctls| {
          newValue[j] := path[i].value;
          assert newValue[..] == before[j := path[i].value];
        } else {
          inside := false;
        }
        ApplyOne(ctls, values, path, i, before, j);
        i := i + 1;
      }
      assert path[..i] == path;
    }

    method ResetMixerState()
      requires Shape()
      modifies newValue
      ensures newValue[..] == resetValue[..]
    {
      var i := 0;
      while i < |ctls|
        invariant i <= |ctls| && newValue[..i] == resetValue[..i]
      {
        newValue[i] := resetValue[i];
        i := i + 1;
      }
    }

    method SaveMixerState()
      requires Shape()
      modifies resetValue
      ensures forall i :: 0 <= i < |ctls| ==> resetValue[i] == hardware[i][0]
    {
      var i := 0;
      while i < |ctls|
        invariant i <= |ctls| && forall k :: 0 <= k < i ==> resetValue[k] == hardware[k][0]
      {
        resetValue[i] := hardware[i][0];
        i := i + 1;
      }
    }

    // Set all values of control i the same.
    method SetAll(i: nat, v: int)
      requires Shape() && i < |ctls|
      modifies hardware
      ensures hardware[i] == seq(|old(hardware[i])|, _ => v)
      ensures forall k :: 0 <= k < |ctls| && k != i ==> hardware[k] == old(hardware[k])
    {
      var j := 0;
      while j < |hardware[i]|
        invariant j <= |hardware[i]| == |old(hardware[i])| && AllAre(hardware[i][..j], v)
        invariant forall k :: 0 <= k < |ctls| && k != i ==> hardware[k] == old(hardware[k])
      {
        hardware[i] := hardware[i][j := v];
        assert hardware[i][..j + 1] == hardware[i][..j] + [v];
        j := j + 1;
      }
      assert hardware[i][..j] == hardware[i] == seq(|old(hardware[i])|, _ => v);
    }

    method UpdateOne(i: nat)
      requires Valid() && i < |ctls|
      modifies this`written, oldValue, hardware
      ensures Valid() && oldValue[..] == old(oldValue[..])[i := newValue[i]]
      ensures written == old(written) + if old(oldValue[i]) != newValue[i] then [i] else []
      ensures hardware[..] == old(hardware[..])[i := Updated(old(hardware[..]), newValue[..])[i]]
    {
      if oldValue[i] != newValue[i] {
        SetAll(i, newValue[i]);
        written := written + [i];
        oldValue[i] := newValue[i];
      }
    }

    method UpdateMixerState()
      requires Valid()
      modifies this`written, oldValue, hardware
      ensures Valid() && oldValue[..] == newValue[..]
      ensures written == old(written) + Changed(old(oldValue[..]), newValue[..])
      ensures hardware[..] == Updated(old(hardware[..]), newValue[..])
    {
      ghost var before, start, was, target := oldValue[..], hardware[..], written, newValue[..];
      var i := 0;
      while i < |ctls|
        invariant i <= |ctls| && Valid() && newValue[..] == target
        invariant Overlaid(oldValue[..], target, before, i)
        invariant written == was + Changed(before[..i], target[..i])
        invariant Overlaid(hardware[..], Updated(start, target), start, i)
      {
        assert oldValue[i] == before[i] && hardware[i] == start[i];
        UpdateOne(i);
        OneMoreChanged(before, target, i, was);
        i := i + 1;
      }
      assert before[..i] == before && target[..i] == target;
    }

    method ApplyPaths(paths: seq<seq<Setting>>) returns (inside: bool)
      requires Shape()
      modifies newValue
      ensures newValue[..] == Applied(ctls, old(newValue[..]), Flatten(paths))
      ensures inside == Known(ctls, Flatten(paths))
    {
      inside := true;
      ghost var values := newValue[..];
      var i := 0;
      while i < |paths|
        invariant i <= |paths|
        invariant newValue[..] == Applied(ctls, values, Flatten(paths[..i]))
        invariant inside == Known(ctls, Flatten(paths[..i]))
      {
        AppliedInTurn(ctls, values, Flatten(paths[..i]), paths[i]);
        var known := PathApply(paths[i]);
        inside := inside && known;
        assert paths[..i + 1][..i] == paths[..i];
        KnownTogether(ctls, Flatten(paths[..i]), paths[i]);
        i := i + 1;
      }
      assert paths[..i] == paths;
    }

    // reset_mixer_state, some paths, update_mixer_state.
    method Route(paths: seq<seq<Setting>>) returns (inside: bool)
      requires Valid()
      modifies this`written, oldValue, newValue, hardware
      ensures Valid() && oldValue[..] == newValue[..] == Applied(ctls, resetValue[..], Flatten(paths))
      ensures written == old(written) + Changed(old(oldValue[..]), newValue[..])
      ensures hardware[..] == AfterRoutes(ctls, resetValue[..], old(hardware[..]), [paths])
      ensures inside == Known(ctls, Flatten(paths))
    {
      ResetMixerState();
      inside := ApplyPaths(paths);
      OneRoute(ctls, resetValue[..], hardware[..], paths);
      UpdateMixerState();
    }

    // select_devices; a path that the configuration does not have is None.
    method SelectDevices(speakerOn: bool, headphoneOn: bool, mainMicOn: bool,
                         speaker: Option<seq<Setting>>, headphone: Option<seq<Setting>>, mainMic: Option<seq<Setting>>)
      returns (inside: bool)
      requires Valid()
      modifies this`written, oldValue, newValue, hardware
      ensures Valid() && oldValue[..] == newValue[..]
      ensures newValue[..] == Applied(ctls, resetValue[..],
        Chosen(speakerOn, speaker) + Chosen(headphoneOn, headphone) + Chosen(mainMicOn, mainMic))
      ensures written == old(written) + Changed(old(oldValue[..]), newValue[..])
      ensures hardware[..] == Updated(old(hardware[..]), newValue[..])
      ensures inside == Known(ctls,
        Chosen(speakerOn, speaker) + Chosen(headphoneOn, headphone) + Chosen(mainMicOn, mainMic))
    {
      ResetMixerState();
      ghost var s, h, m := Chosen(speakerOn, speaker), Chosen(headphoneOn, headphone), Chosen(mainMicOn, mainMic);
      AppliedInTurn(ctls, resetValue[..], s, h);
      AppliedInTurn(ctls, resetValue[..], s + h, m);
      KnownTogether(ctls, s, h);
      KnownTogether(ctls, s + h, m);
      var inS := ApplyChosen(speakerOn, speaker);
      var inH := ApplyChosen(headphoneOn, headphone);
      var inM := ApplyChosen(mainMicOn, mainMic);
      inside := inS && inH && inM;
      UpdateMixerState();
    }

    // audio_route_apply_path, if the device is on.
    method ApplyChosen(on: bool, path: Option<seq<Setting>>) returns (inside: bool)
      requires Shape()
      modifies newValue
      ensures newValue[..] == Applied(ctls, old(newValue[..]), Chosen(on, path))
      ensures inside == Known(ctls, Chosen(on, path))
    {
      inside := true;
      if on && path.Some? {
        inside := PathApply(path.value);
      }
    }
  }

  // The first i elements are those of one sequence, the rest those of another.
  predicate Overlaid<T(==)>(s: seq<T>, first: seq<T>, rest: seq<T>, i: nat) {
    |s| == |first| == |rest| && i <= |s|
    && (forall k :: 0 <= k < i ==> s[k] == first[k]) && forall k :: i <= k < |s| ==> s[k] == rest[k]
  }

  lemma OneMoreChanged(a: seq<int>, b: seq<int>, i: nat, was: seq<nat>)
    requires |a| == |b| && i < |a|
    ensures was + Changed(a[..i], b[..i]) + (if a[i] != b[i] then [i] else [])
      == was + Changed(a[..i + 1], b[..i + 1])
  {
    assert a[..i + 1][..i] == a[..i] && b[..i + 1][..i] == b[..i];
  }

  lemma KnownTogether(ctls: seq<nat>, a: seq<Setting>, b: seq<Setting>)
    ensures Known(ctls, a + b) <==> Known(ctls, a) && Known(ctls, b)
  {
    if Known(ctls, a + b) {
      assert forall x :: x in a || x in b ==> x in a + b;
    }
  }

  function Chosen(on: bool, path: Option<seq<Setting>>): seq<Setting> {
    if on && path.Some? then path.value else []
  }

  // What select_devices comes to for one control: the main-mic path goes before the headphone path, that
  // before the speaker path, each only while its device is on, and the reset value comes last.
  lemma WhichDeviceWins(ctls: seq<nat>, reset: seq<int>, speakerOn: bool, headphoneOn: bool, mainMicOn: bool,
                        speaker: Option<seq<Setting>>, headphone: Option<seq<Setting>>, mainMic: Option<seq<Setting>>,
                        i: nat)
    requires |ctls| == |reset| && i < |ctls|
    ensures var value := Applied(ctls, reset,
        Chosen(speakerOn, speaker) + Chosen(headphoneOn, headphone) + Chosen(mainMicOn, mainMic))[i];
      if mainMicOn && mainMic.Some? && LastSetting(mainMic.value, ctls[i]).Some?
      then LastSetting(mainMic.value, ctls[i]) == Some(value)
      else if headphoneOn && headphone.Some? && LastSetting(headphone.value, ctls[i]).Some?
      then LastSetting(headphone.value, ctls[i]) == Some(value)
      else if speakerOn && speaker.Some? && LastSetting(speaker.value, ctls[i]).Some?
      then LastSetting(speaker.value, ctls[i]) == Some(value)
      else value == reset[i]
  {
    var s, h, m := Chosen(speakerOn, speaker), Chosen(headphoneOn, headphone), Chosen(mainMicOn, mainMic);
    LastWins(ctls, reset, s + h + m, i);
    LastOfBoth(s + h, m, ctls[i]);
    LastOfBoth(s, h, ctls[i]);
    assert LastSetting([], ctls[i]) == None;
  }

  lemma ApplyOne(ctls: seq<nat>, values: seq<int>, path: seq<Setting>, i: nat, before: seq<int>, j: nat)
    requires |ctls| == |values| && Distinct(ctls) && i < |path|
    requires j < |ctls| <==> path[i].ctl in ctls
    requires j < |ctls| ==> ctls[j] == path[i].ctl
    requires before == Applied(ctls, values, path[..i])
    ensures (if j < |ctls| then before[j := path[i].value] else before) == Applied(ctls, values, path[..i + 1])
    ensures Known(ctls, path[..i + 1]) <==> Known(ctls, path[..i]) && j < |ctls|
  {
    assert path[..i + 1][..i] == path[..i];
    KnownTogether(ctls, path[..i], [path[i]]);
    assert path[..i + 1] == path[..i] + [path[i]];
  }

  // One control, and a setting of another one.
  method UnknownControl() returns (inside: bool)
    ensures !inside
  {
    var route := new AudioRoute([0], [[0]]);
    inside := route.PathApply([Setting(1, 5)]);
    assert Setting(1, 5) in [Setting(1, 5)];
  }

  // ---- any number of routes -----------------------------------------------------------------------

  predicate HasValues(hardware: seq<seq<int>>) {
    forall i :: 0 <= i < |hardware| ==> hardware[i] != []
  }

  // The hardware after update_mixer_state, when the cache agrees with the first values.
  function Updated(hardware: seq<seq<int>>, values: seq<int>): (r: seq<seq<int>>)
    requires |values| == |hardware| && HasValues(hardware)
    ensures |r| == |hardware| && HasValues(r)
  {
    seq(|hardware|, i requires 0 <= i < |hardware| =>
      if hardware[i][0] != values[i] then seq(|hardware[i]|, _ => values[i]) else hardware[i])
  }

  function AfterRoutes(ctls: seq<nat>, reset: seq<int>, hardware: seq<seq<int>>, routes: seq<seq<seq<Setting>>>):
    (r: seq<seq<int>>)
    requires |ctls| == |reset| == |hardware| && HasValues(hardware)
    ensures |r| == |hardware| && HasValues(r)
  {
    if routes == [] then hardware
    else
      var n := |routes| - 1;
      Updated(AfterRoutes(ctls, reset, hardware, routes[..n]), Applied(ctls, reset, Flatten(routes[n])))
  }

  // Writing the changed controls comes to the same as writing every control exactly if the controls
  // left alone have one value throughout.
  lemma SameAsWritingAll(hardware: seq<seq<int>>, values: seq<int>)
    requires |values| == |hardware| && HasValues(hardware)
    ensures (forall i :: 0 <= i < |hardware| ==> AllAre(Updated(hardware, values)[i], values[i])) <==>
      (forall i :: 0 <= i < |hardware| && hardware[i][0] == values[i] ==> Uniform(hardware[i]))
  {
    forall i | 0 <= i < |hardware|
      ensures AllAre(Updated(hardware, values)[i], values[i]) <==>
        (hardware[i][0] == values[i] ==> Uniform(hardware[i]))
    {
      var h := Updated(hardware, values)[i];
      if hardware[i][0] == values[i] && AllAre(h, values[i]) {
        assert forall k :: 0 <= k < |h| ==> hardware[i][k] == h[k];
      }
    }
  }

  lemma OneRoute(ctls: seq<nat>, reset: seq<int>, hardware: seq<seq<int>>, paths: seq<seq<Setting>>)
    requires |ctls| == |reset| == |hardware| && HasValues(hardware)
    ensures AfterRoutes(ctls, reset, hardware, [paths]) == Updated(hardware, Applied(ctls, reset, Flatten(paths)))
  {
    var routes := [paths];
    assert routes[..0] == [];
  }

  // A control whose values differ, left alone because its first value is right already.
  lemma NotWrittenAll()
    ensures Updated([[0, 1]], [0]) == [[0, 1]] && !AllAre([0, 1], 0)
  {
    assert [0, 1][1] != 0;
  }

  // The value a route gives to control i.
  function RouteValue(ctls: seq<nat>, reset: seq<int>, paths: seq<seq<Setting>>, i: nat): int
    requires |ctls| == |reset| && i < |ctls|
  {
    match LastSetting(Flatten(paths), ctls[i]) case Some(v) => v case None => reset[i]
  }

  predicate EverDiffers(ctls: seq<nat>, reset: seq<int>, routes: seq<seq<seq<Setting>>>, i: nat, first: int)
    requires |ctls| == |reset| && i < |ctls|
  {
    exists r :: 0 <= r < |routes| && RouteValue(ctls, reset, routes[r], i) != first
  }

  lemma DiffersEarlier(ctls: seq<nat>, reset: seq<int>, routes: seq<seq<seq<Setting>>>, i: nat, first: int)
    requires |ctls| == |reset| && i < |ctls| && routes != []
    ensures EverDiffers(ctls, reset, routes, i, first) <==>
      || EverDiffers(ctls, reset, routes[..|routes| - 1], i, first)
      || RouteValue(ctls, reset, routes[|routes| - 1], i) != first
  {
    var n := |routes| - 1;
    if EverDiffers(ctls, reset, routes[..n], i, first) {
      var r :| 0 <= r < n && RouteValue(ctls, reset, routes[..n][r], i) != first;
      assert routes[r] == routes[..n][r];
    }
    if EverDiffers(ctls, reset, routes, i, first) {
      var r :| 0 <= r < |routes| && RouteValue(ctls, reset, routes[r], i) != first;
      assert r < n ==> routes[..n][r] == routes[r];
    }
  }

  // As long as no route asks for another first value, the control is left alone.
  lemma {:induction false} LeftAloneOrUniform(ctls: seq<nat>, reset: seq<int>, hardware: seq<seq<int>>,
                                              routes: seq<seq<seq<Setting>>>, i: nat)
    requires |ctls| == |reset| == |hardware| && HasValues(hardware) && i < |ctls|
    ensures var h := AfterRoutes(ctls, reset, hardware, routes)[i];
      && |h| == |hardware[i]|
      && (routes != [] ==> h[0] == RouteValue(ctls, reset, routes[|routes| - 1], i))
      && if EverDiffers(ctls, reset, routes, i, hardware[i][0]) then Uniform(h) else h == hardware[i]
  {
    if routes == [] {
    } else {
      var n := |routes| - 1;
      LeftAloneOrUniform(ctls, reset, hardware, routes[..n], i);
      DiffersEarlier(ctls, reset, routes, i, hardware[i][0]);
      LastWins(ctls, reset, Flatten(routes[n]), i);
    }
  }

  // However many routes came before, every value of a control is what the last route's last setting of
  // it says, or its reset value: exactly if the control started uniform or some route, any of them,
  // asked for a value other than its first one.
  lemma OnlyTheLastRouteMatters(ctls: seq<nat>, reset: seq<int>, hardware: seq<seq<int>>,
                                routes: seq<seq<seq<Setting>>>, i: nat)
    requires |ctls| == |reset| == |hardware| && HasValues(hardware) && i < |ctls|
    requires routes != []
    ensures var h := AfterRoutes(ctls, reset, hardware, routes)[i];
      && |h| == |hardware[i]|
      && (AllAre(h, RouteValue(ctls, reset, routes[|routes| - 1], i)) <==>
            Uniform(hardware[i]) || EverDiffers(ctls, reset, routes, i, hardware[i][0]))
  {
    LeftAloneOrUniform(ctls, reset, hardware, routes, i);
  }
}
