/** What a reader of the wire format finds in the messages of source preferences, which this package only writes. */
module MihonPreferences {
  import opened Common
  import opened Varint
  import opened Wire
  import opened Sorting
  import opened Mihon
  import opened MihonFields
  import opened MihonWriter

  const STRING_VALUE: Text := Ascii("eu.kanade.tachiyomi.data.backup.models.StringPreferenceValue")

  lemma DecodedStep(b: Bytes, f: Field, size: nat, rest: seq<Field>)
    requires b != [] && ReadField(b) == Ok(Got(f, size)) && Decoded(b[size..]) == Ok(rest)
    ensures Decoded(b) == Ok([f] + rest)
  {
  }

  lemma FirstWritten(f: Field, rest: seq<Field>)
    requires AllWritable([f] + rest) && |EncFields([f] + rest)| < TWO64
    ensures ReadField(EncFields([f] + rest)) == Ok(Got(f, |EncField(f)|)) && EncField(f) != []
    ensures EncFields([f] + rest)[|EncField(f)|..] == EncFields(rest)
  {
    var fs := [f] + rest;
    assert fs[0] == f && fs[1..] == rest;
    if f.typ == WIRE_BYTES {
      PartShorter(fs, 0);
    }
    ReadEncField(f, EncFields(rest));
  }

  /** A written message holds the fields that were written. */
  lemma {:induction false} DecodedWritten(fs: seq<Field>)
    requires AllWritable(fs) && |EncFields(fs)| < TWO64
    ensures Decoded(EncFields(fs)) == Ok(fs)
  {
    if fs != [] {
      var f, rest := fs[0], fs[1..];
      assert fs == [f] + rest;
      FirstWritten(f, rest);
      DecodedWritten(rest);
      DecodedStep(EncFields(fs), f, |EncField(f)|, rest);
    }
  }

  /** The message of a value: the name of its class in field 1, and in field 2 a message with the value in field 1. */
  ghost predicate HoldsValue(b: Bytes, value: Text) {
    && Decoded(b).Ok? && |Decoded(b).value| == 2
    && TextIn(Decoded(b).value, 1) == STRING_VALUE
    && var inner := TextIn(Decoded(b).value, 2);
       Decoded(inner).Ok? && |Decoded(inner).value| == 1 && TextIn(Decoded(inner).value, 1) == value
  }

  /** The message of a setting: the key in field 1 and its value in field 2. */
  ghost predicate HoldsSetting(b: Bytes, key: Text, value: Text) {
    && Decoded(b).Ok? && |Decoded(b).value| == 2
    && TextIn(Decoded(b).value, 1) == key && HoldsValue(TextIn(Decoded(b).value, 2), value)
  }

  /** Byte order: a is the beginning of b, or smaller where they first differ. */
  ghost predicate Before(a: Text, b: Text) {
    exists n: nat :: SmallerAt(a, b, n)
  }

  predicate SmallerAt(a: Text, b: Text, n: nat) {
    n <= |a| && n < |b| && a[..n] == b[..n] && (n == |a| || a[n] < b[n])
  }

  lemma {:induction false} LessIsBefore(a: Text, b: Text)
    requires TextLess(a, b)
    ensures Before(a, b)
  {
    if a == [] || a[0] < b[0] {
      assert SmallerAt(a, b, 0);
    } else {
      LessIsBefore(a[1..], b[1..]);
      var n: nat :| SmallerAt(a[1..], b[1..], n);
      assert a[..n + 1] == [a[0]] + a[1..][..n] && b[..n + 1] == [b[0]] + b[1..][..n];
      assert SmallerAt(a, b, n + 1);
    }
  }

  lemma {:induction false} OneIsLess(a: Text, b: Text)
    ensures a == b || TextLess(a, b) || TextLess(b, a)
  {
    if a != [] && b != [] && a[0] == b[0] {
      OneIsLess(a[1..], b[1..]);
      assert a == [a[0]] + a[1..] && b == [b[0]] + b[1..];
    }
  }

  /** Two fields in a message of their own. */
  lemma TwoFields(a: Field, b: Field)
    requires Writable(a) && Writable(b) && a.num != b.num && |EncFields([a, b])| < TWO64
    ensures Decoded(EncFields([a, b])) == Ok([a, b])
    ensures TextIn([a, b], a.num) == a.bytes && TextIn([a, b], b.num) == b.bytes
  {
    DecodedWritten([a, b]);
    LastOfIs([a, b], a.num, 0);
    LastOfIs([a, b], b.num, 1);
  }

  lemma OneField(a: Field)
    requires Writable(a) && |EncFields([a])| < TWO64
    ensures Decoded(EncFields([a])) == Ok([a]) && TextIn([a], a.num) == a.bytes
  {
    DecodedWritten([a]);
    LastOfIs([a], a.num, 0);
  }

  lemma ValueHolds(value: Text, b: Bytes)
    requires b == EncFields([StrField(1, STRING_VALUE), MsgField(2, [StrField(1, value)])]) && |b| < TWO64
    ensures HoldsValue(b, value)
  {
    var fs := [StrField(1, STRING_VALUE), MsgField(2, [StrField(1, value)])];
    PartShorter(fs, 1);
    TwoFields(fs[0], fs[1]);
    OneField(StrField(1, value));
  }

  lemma SettingHolds(f: Field, key: Text, value: Text)
    requires MadeOfOne(f, value, key) && |f.bytes| < TWO64
    ensures f.num == 2 && f.typ == WIRE_BYTES && HoldsSetting(f.bytes, key, value)
  {
    var inner := [StrField(1, STRING_VALUE), MsgField(2, [StrField(1, value)])];
    var fs := [StrField(1, key), MsgField(2, inner)];
    assert f == MsgField(2, fs);
    PartShorter(fs, 1);
    TwoFields(fs[0], fs[1]);
    ValueHolds(value, EncFields(inner));
  }

  /** Each field is the message of its key. */
  ghost predicate MadeOf(fs: seq<Field>, strings: map<Text, Text>, keys: seq<Text>) {
    |fs| == |keys| && forall i :: 0 <= i < |keys| ==> MadeOfOne(fs[i], NameOf(strings, keys[i]), keys[i])
  }

  ghost predicate MadeOfOne(f: Field, value: Text, key: Text) {
    f == PreferenceField(key, value)
  }

  lemma MadeOfNext(fs: seq<Field>, strings: map<Text, Text>, keys: seq<Text>, f: Field, key: Text)
    requires MadeOf(fs, strings, keys) && MadeOfOne(f, NameOf(strings, key), key)
    ensures MadeOf(fs + [f], strings, keys + [key])
  {
    forall i | 0 <= i < |keys| + 1 ensures MadeOfOne((fs + [f])[i], NameOf(strings, (keys + [key])[i]), (keys + [key])[i]) {
      assert i < |keys| ==> (fs + [f])[i] == fs[i] && (keys + [key])[i] == keys[i];
    }
  }

  lemma {:induction false} PreferenceFieldsAt(strings: map<Text, Text>, keys: seq<Text>)
    ensures MadeOf(PreferenceFields(strings, keys), strings, keys)
  {
    if keys != [] {
      var front, key := keys[..|keys| - 1], keys[|keys| - 1];
      assert keys == front + [key];
      PreferenceFieldsAt(strings, front);
      MadeOfNext(PreferenceFields(strings, front), strings, front, PreferenceField(key, NameOf(strings, key)), key);
    }
  }

  /** The settings of a source, each key once and in byte order. */
  ghost predicate HoldsSettings(fs: seq<Field>, keys: seq<Text>, strings: map<Text, Text>) {
    && |fs| == |keys| && (forall k :: k in keys <==> k in strings)
    && (forall i, j :: 0 <= i < j < |keys| ==> Before(keys[i], keys[j]))
    && (forall i :: 0 <= i < |fs| ==> fs[i].num == 2 && keys[i] in strings && HoldsSetting(fs[i].bytes, keys[i], strings[keys[i]]))
  }

  lemma SettingsHold(fs: seq<Field>, keys: seq<Text>, strings: map<Text, Text>)
    requires Walks(keys, strings.Keys) && NoInversion(keys, TextLess) && MadeOf(fs, strings, keys)
    requires forall i :: 0 <= i < |fs| ==> |fs[i].bytes| < TWO64
    ensures HoldsSettings(fs, keys, strings)
  {
    forall i, j | 0 <= i < j < |keys| ensures Before(keys[i], keys[j]) {
      OneIsLess(keys[i], keys[j]);
      LessIsBefore(keys[i], keys[j]);
    }
    forall i | 0 <= i < |fs|
      ensures fs[i].num == 2 && keys[i] in strings && HoldsSetting(fs[i].bytes, keys[i], strings[keys[i]])
    {
      assert keys[i] in keys;
      SettingHolds(fs[i], keys[i], strings[keys[i]]);
    }
  }

  lemma SettingIsPart(fs: seq<Field>, i: nat, value: Text, key: Text)
    requires i < |fs| && MadeOfOne(fs[i], value, key) && |EncFields(fs)| < TWO64
    ensures Writable(fs[i]) && |fs[i].bytes| < TWO64
  {
    PartShorter(fs, i);
  }

  lemma SettingFits(name: Field, settings: seq<Field>, i: nat, value: Text, key: Text)
    requires |EncFields([name] + settings)| < TWO64 && i < |settings| && MadeOfOne(settings[i], value, key)
    ensures Writable(settings[i]) && |settings[i].bytes| < TWO64
  {
    assert ([name] + settings)[i + 1] == settings[i];
    SettingIsPart([name] + settings, i + 1, value, key);
  }

  lemma SettingsFit(name: Field, settings: seq<Field>, strings: map<Text, Text>, keys: seq<Text>)
    requires |EncFields([name] + settings)| < TWO64 && MadeOf(settings, strings, keys)
    ensures AllWritable(settings) && forall i :: 0 <= i < |settings| ==> |settings[i].bytes| < TWO64
  {
    forall i | 0 <= i < |settings| ensures Writable(settings[i]) && |settings[i].bytes| < TWO64 {
      SettingFits(name, settings, i, NameOf(strings, keys[i]), keys[i]);
    }
  }

  lemma FirstWritable(name: Field, settings: seq<Field>)
    requires Writable(name) && AllWritable(settings)
    ensures AllWritable([name] + settings)
  {
  }

  function NameField(p: Preferences): Field {
    StrField(1, Ascii("source_") + p.sourceId)
  }

  lemma SomeKeys(f: Field, p: Preferences) returns (keys: seq<Text>)
    requires IsPreference(f, p)
    ensures Walks(keys, p.strings.Keys) && NoInversion(keys, TextLess)
    ensures f.num == 105 && f.bytes == EncFields([NameField(p)] + PreferenceFields(p.strings, keys))
  {
    keys :| Walks(keys, p.strings.Keys) && NoInversion(keys, TextLess)
      && f == MsgField(105, [StrField(1, Ascii("source_") + p.sourceId)] + PreferenceFields(p.strings, keys));
  }

  /**
   A source's message has its name first, "source_" and the id, in field 1; then a field 2 for each setting, in the byte
   order of the keys.
   */
  lemma PreferencesRead(f: Field, p: Preferences) returns (keys: seq<Text>)
    requires IsPreference(f, p) && |f.bytes| < TWO64
    ensures f.num == 105 && Decoded(f.bytes).Ok?
    ensures var fs := Decoded(f.bytes).value;
      fs != [] && fs[0].num == 1 && fs[0].bytes == Ascii("source_") + p.sourceId && HoldsSettings(fs[1..], keys, p.strings)
  {
    keys := SomeKeys(f, p);
    PreferenceFieldsAt(p.strings, keys);
    FirstThenSettings(f.bytes, NameField(p), PreferenceFields(p.strings, keys), keys, p.strings);
  }

  lemma FirstThenSettings(b: Bytes, name: Field, settings: seq<Field>, keys: seq<Text>, strings: map<Text, Text>)
    requires b == EncFields([name] + settings) && |b| < TWO64 && Writable(name) && MadeOf(settings, strings, keys)
    requires Walks(keys, strings.Keys) && NoInversion(keys, TextLess)
    ensures Decoded(b).Ok? && Decoded(b).value != [] && Decoded(b).value[0] == name && HoldsSettings(Decoded(b).value[1..], keys, strings)
  {
    var fs := [name] + settings;
    SettingsFit(name, settings, strings, keys);
    FirstWritable(name, settings);
    DecodedWritten(fs);
    SettingsHold(settings, keys, strings);
    assert fs[1..] == settings;
  }
}
