/**
 * The file input widget of the chat view: a drop target and a hidden file
 * picker that read one text file, reject text that is not 7-bit ASCII,
 * cut it to an optional maximum length, and report `{name, content}` to
 * the parent after every change, the empty pair meaning "no file".
 */
module FileProvider {
  import opened Wrappers

  /** One UTF-16 code unit: the element of a JavaScript string. */
  type CodeUnit = c: int | 0 <= c < 0x1_0000

  /** A JavaScript string, as its code units (`length` counts them). */
  type JsString = seq<CodeUnit>

  /** What the widget reports to its parent. */
  datatype FileObject = FileObject(name: JsString, content: JsString)

  /** The report that means "no file". */
  const Empty: FileObject := FileObject([], [])

  /** The two notices the widget can raise. */
  datatype Toast = ParseError | MaxLength

  /** The reports and notices of one step of the widget. */
  datatype Outcome = Outcome(obj: FileObject, toasts: seq<Toast>)

  /** The test `/^[\x00-\x7F]*$/`: every code unit is 7-bit. */
  predicate IsAscii(s: JsString)
  {
    forall i :: 0 <= i < |s| ==> s[i] <= 0x7F
  }

  /** `s || ""`: a missing argument and the empty string both become "". */
  function OrEmpty(s: Option<JsString>): (r: JsString)
  {
    s.GetOr([])
  }

  /** The guard `maxLength && data.length > maxLength`: a limit of 0 or none is off. */
  predicate Truncates(data: JsString, maxLength: Option<nat>)
  {
    maxLength.Some? && maxLength.value > 0 && |data| > maxLength.value
  }

  /** `data.slice(0, maxLength)` under that guard. */
  function Truncate(data: JsString, maxLength: Option<nat>): (r: JsString)
    ensures r <= data
    ensures r == data <==> !Truncates(data, maxLength)
    ensures Truncates(data, maxLength) ==> |r| == maxLength.value
    ensures maxLength.Some? && maxLength.value > 0 ==> |r| <= maxLength.value
    ensures r == [] <==> data == []
  {
    if Truncates(data, maxLength) then data[..maxLength.value] else data
  }

  /**
   * What `handleChange(name, data)` reports and which notices it raises,
   * for the widget's `maxLength`.
   */
  function Change(name: Option<JsString>, data: Option<JsString>, maxLength: Option<nat>): (o: Outcome)
    // the content is the data, possibly cut; it is empty only in the "no file" report
    ensures o.obj.content <= OrEmpty(data)
    ensures o.obj.content == [] <==> OrEmpty(data) == []
    ensures o.obj.content == [] ==> o.obj == Empty
    ensures o.obj.content != [] ==> o.obj.name == OrEmpty(name)
    // with a positive limit the content never exceeds it
    ensures maxLength.Some? && maxLength.value > 0 ==> |o.obj.content| <= maxLength.value
    // the data is cut, to exactly `maxLength` code units, only when the limit is
    // truthy and the data longer; otherwise it is reported unchanged
    ensures Truncates(OrEmpty(data), maxLength) ==> |o.obj.content| == maxLength.value
    ensures !Truncates(OrEmpty(data), maxLength) ==> o.obj.content == OrEmpty(data)
    // one max-length notice exactly when the content was cut, none otherwise
    ensures o.toasts == [MaxLength] <==> Truncates(OrEmpty(data), maxLength)
    ensures o.toasts == [MaxLength] <==> o.obj.content != OrEmpty(data)
    ensures o.toasts == [] <==> o.obj.content == OrEmpty(data)
  {
    var n := OrEmpty(name);
    var d := Truncate(OrEmpty(data), maxLength);
    Outcome(if d == [] then Empty else FileObject(n, d),
            if Truncates(OrEmpty(data), maxLength) then [MaxLength] else [])
  }

  /** Without a (truthy) limit, `handleChange` reports its arguments unchanged and raises nothing. */
  lemma ChangeWithoutLimit(name: JsString, data: JsString, maxLength: Option<nat>)
    requires maxLength.None? || maxLength.value == 0
    requires data != []
    ensures Change(Some(name), Some(data), maxLength) == Outcome(FileObject(name, data), [])
  {
  }

  /** Within a positive limit, `handleChange` reports its arguments unchanged and raises nothing. */
  lemma ChangeWithinLimit(name: JsString, data: JsString, m: nat)
    requires 0 < |data| <= m
    ensures Change(Some(name), Some(data), Some(m)) == Outcome(FileObject(name, data), [])
  {
  }

  /** Over a positive limit, `handleChange` reports the first `maxLength` code units and one notice. */
  lemma ChangeOverLimit(name: JsString, data: JsString, m: nat)
    requires 0 < m < |data|
    ensures Change(Some(name), Some(data), Some(m)) == Outcome(FileObject(name, data[..m]), [MaxLength])
  {
  }

  /**
   * What the drop listener reports for a dropped file `(name, text)`, or
   * for a drop without a file. The text that passes the ASCII test is
   * handed to `handleChange` as its NAME, with no data.
   */
  function DropEffect(file: Option<(JsString, JsString)>, maxLength: Option<nat>): (o: Outcome)
    // every drop ends in the "no file" report
    ensures o.obj == Empty
    // one parse-error notice for text that is not ASCII, no notice otherwise
    ensures o.toasts == if file.Some? && !IsAscii(file.value.1) then [ParseError] else []
  {
    match file
    case None => Change(None, None, maxLength)
    case Some((_, text)) =>
      if !IsAscii(text) then
        var o := Change(None, None, maxLength);
        Outcome(o.obj, [ParseError] + o.toasts)
      else
        Change(Some(text), None, maxLength)
  }

  /** What the picker reports for a chosen file `(name, text)`, or for a cancelled choice. */
  function PickEffect(file: Option<(JsString, JsString)>, maxLength: Option<nat>): (o: Outcome)
    ensures file.None? ==> o == Outcome(Empty, [])
    ensures file.Some? && !IsAscii(file.value.1) ==> o == Outcome(Empty, [ParseError])
    ensures file.Some? && IsAscii(file.value.1) ==> o == Change(Some(file.value.0), Some(file.value.1), maxLength)
  {
    match file
    case None => Change(Some([]), Some([]), maxLength)
    case Some((name, text)) =>
      if !IsAscii(text) then
        var o := Change(Some(name), Some([]), maxLength);
        Outcome(o.obj, [ParseError] + o.toasts)
      else
        Change(Some(name), Some(text), maxLength)
  }

  /**
   * A picked ASCII file within the limit (or with no limit) is reported
   * exactly as `{name, text}`; above a positive limit its text is cut
   * and one max-length notice is raised.
   */
  lemma PickValidFile(name: JsString, text: JsString, maxLength: Option<nat>)
    requires IsAscii(text) && text != []
    ensures !Truncates(text, maxLength) ==>
      PickEffect(Some((name, text)), maxLength) == Outcome(FileObject(name, text), [])
    ensures Truncates(text, maxLength) ==>
      PickEffect(Some((name, text)), maxLength) ==
        Outcome(FileObject(name, text[..maxLength.value]), [MaxLength])
  {
  }

  /** The drop path as the picker's: what the drop listener evidently means to report. */
  function DropEffectIntended(file: Option<(JsString, JsString)>, maxLength: Option<nat>): (o: Outcome)
    ensures file.Some? && IsAscii(file.value.1) ==> o == Change(Some(file.value.0), Some(file.value.1), maxLength)
  {
    match file
    case None => Change(None, None, maxLength)
    case Some((name, text)) =>
      if !IsAscii(text) then
        var o := Change(None, None, maxLength);
        Outcome(o.obj, [ParseError] + o.toasts)
      else
        Change(Some(name), Some(text), maxLength)
  }

  /** A drop of a non-empty ASCII file loses it: the drop path reports "no file" where the picker reports the file. */
  lemma DropLosesValidFile(name: JsString, text: JsString, maxLength: Option<nat>)
    requires IsAscii(text) && text != []
    ensures DropEffect(Some((name, text)), maxLength).obj == Empty
    ensures PickEffect(Some((name, text)), maxLength).obj.content != []
    ensures DropEffect(Some((name, text)), maxLength) != PickEffect(Some((name, text)), maxLength)
  {
  }

  /** With the name passed along, the drop path and the picker agree on every input. */
  lemma DropIntendedMatchesPick(file: Option<(JsString, JsString)>, maxLength: Option<nat>)
    ensures DropEffectIntended(file, maxLength) == PickEffect(file, maxLength)
  {
  }

  /**
   * The widget's state: whether a file is loaded, the name shown, and
   * (as ghost logs) every report passed to `onChange` and every notice raised.
   */
  class Widget {
    const maxLength: Option<nat>
    var active: bool
    var filename: JsString
    ghost var emitted: seq<FileObject>
    ghost var toasts: seq<Toast>

    /**
     * The shown state follows the last report: the name is its name, and
     * a file is loaded exactly when its content is non-empty. A report with
     * empty content is always the "no file" report.
     */
    ghost predicate Valid()
      reads this
    {
      && (emitted == [] ==> !active && filename == [])
      && (emitted != [] ==>
            filename == emitted[|emitted| - 1].name &&
            active == (emitted[|emitted| - 1].content != []))
      && forall i :: 0 <= i < |emitted| && emitted[i].content == [] ==> emitted[i] == Empty
    }

    /** A freshly mounted widget: nothing loaded, nothing reported. */
    constructor (maxLength: Option<nat>)
      ensures Valid()
      ensures this.maxLength == maxLength
      ensures !active && filename == [] && emitted == [] && toasts == []
    {
      this.maxLength := maxLength;
      active := false;
      filename := [];
      emitted := [];
      toasts := [];
    }

    /** The state after a step that reported `o`, with `o`'s notices appended to the log. */
    twostate predicate Shows(o: Outcome)
      reads this
    {
      && emitted == old(emitted) + [o.obj]
      && toasts == old(toasts) + o.toasts
      && filename == o.obj.name
      && active == (o.obj.content != [])
    }

    /** `clear`: forget the file and report "no file", whatever the state was. */
    method Clear()
      requires Valid()
      modifies this
      ensures Valid()
      ensures !active && filename == []
      ensures emitted == old(emitted) + [Empty] && toasts == old(toasts)
    {
      filename := [];
      active := false;
      emitted := emitted + [Empty];
    }

    /** `handleChange(name, data)`: load `data` (cut to the limit) under `name`, or clear when it is empty. */
    method HandleChange(name: Option<JsString>, data: Option<JsString>)
      requires Valid()
      modifies this
      ensures Valid()
      ensures Shows(Change(name, data, maxLength))
    {
      var n := OrEmpty(name);
      var d := OrEmpty(data);
      if maxLength.Some? && maxLength.value > 0 && |d| > maxLength.value {
        d := d[..maxLength.value];
        toasts := toasts + [MaxLength];
      }
      active := d != [];
      if d == [] {
        filename := [];
        emitted := emitted + [Empty];
      } else {
        filename := n;
        emitted := emitted + [FileObject(n, d)];
      }
    }

    /** The close icon on a loaded file: `handleChange()`. */
    method Close()
      requires Valid()
      modifies this
      ensures Valid()
      ensures !active && filename == []
      ensures emitted == old(emitted) + [Empty] && toasts == old(toasts)
    {
      HandleChange(None, None);
    }

    /** The drop listener, once the dropped file (if any) has been read as text. */
    method Drop(file: Option<(JsString, JsString)>)
      requires Valid()
      modifies this
      ensures Valid()
      ensures Shows(DropEffect(file, maxLength))
      ensures !active && filename == []
    {
      if file.None? {
        HandleChange(None, None);
      } else {
        var text := file.value.1;
        if !IsAscii(text) {
          toasts := toasts + [ParseError];
          HandleChange(None, None);
        } else {
          HandleChange(Some(text), None);
        }
      }
    }

    /** The drop listener with the file's name passed along, as the picker does. */
    method DropAsIntended(file: Option<(JsString, JsString)>)
      requires Valid()
      modifies this
      ensures Valid()
      ensures Shows(DropEffectIntended(file, maxLength))
    {
      if file.None? {
        HandleChange(None, None);
      } else {
        var (name, text) := file.value;
        if !IsAscii(text) {
          toasts := toasts + [ParseError];
          HandleChange(None, None);
        } else {
          HandleChange(Some(name), Some(text));
        }
      }
    }

    /** The picker's `handleChange`, once the chosen file (if any) has been read as text. */
    method Pick(file: Option<(JsString, JsString)>)
      requires Valid()
      modifies this
      ensures Valid()
      ensures Shows(PickEffect(file, maxLength))
    {
      if file.None? {
        HandleChange(Some([]), Some([]));
      } else {
        var (name, text) := file.value;
        if !IsAscii(text) {
          toasts := toasts + [ParseError];
          HandleChange(Some(name), Some([]));
        } else {
          HandleChange(Some(name), Some(text));
        }
      }
    }
  }

  /** Clearing twice leaves the same state as clearing once and reports "no file" both times. */
  method ClearTwice(w: Widget)
    requires w.Valid()
    modifies w
    ensures w.Valid()
    ensures !w.active && w.filename == []
    ensures w.emitted == old(w.emitted) + [Empty, Empty] && w.toasts == old(w.toasts)
  {
    w.Clear();
    w.Clear();
  }
}
