/** Concrete runs of the wrapper on typical adb output. */
module Scenarios {
  import opened GoStrings
  import opened Errors
  import opened AdbUtils
  import opened Scrcpy

  /** A lone newline-terminated line splits into the line and an empty
      last piece. */
  lemma LastLine(c: string)
    requires '\n' !in c
    ensures Split(c + Newline, Newline) == [c, ""]
  {
    assert c + Newline == c + ['\n'] + "";
    SplitConsChar(c, '\n', "");
    ContainsChar("", '\n');
  }

  /** Two newline-terminated lines split into the two lines and an empty
      last piece. */
  lemma TwoLines(a: string, b: string)
    requires '\n' !in a && '\n' !in b
    ensures Split(a + Newline + b + Newline, Newline) == [a, b, ""]
  {
    var t := b + Newline;
    var s := a + Newline + b + Newline;
    assert s == a + Newline + t by {
      assert |s| == |a + Newline + t|;
      forall k | 0 <= k < |s| ensures s[k] == (a + Newline + t)[k] { }
    }
    SplitFirstLine(a, t);
    LastLine(b);
  }

  /** Three newline-terminated lines split into the three lines and an empty
      last piece. */
  lemma ThreeLines(a: string, b: string, c: string)
    requires '\n' !in a && '\n' !in b && '\n' !in c
    ensures Split(a + Newline + b + Newline + c + Newline, Newline) == [a, b, c, ""]
  {
    var t := b + Newline + c + Newline;
    var s := a + Newline + b + Newline + c + Newline;
    assert s == a + Newline + t by {
      assert |s| == |a + Newline + t|;
      forall k | 0 <= k < |s| ensures s[k] == (a + Newline + t)[k] { }
    }
    SplitFirstLine(a, t);
    TwoLines(b, c);
  }

  /** The identifiers collected from two `name<TAB>state` lines and an empty
      one. */
  lemma TwoLineIds(n1: string, s1: string, n2: string, s2: string)
    requires '\t' !in n1 && '\t' !in n2
    ensures DeviceIds([n1 + Tab + s1, n2 + Tab + s2, ""])
         == (if IsDeviceLine(n1 + Tab + s1) then [n1] else [])
          + (if IsDeviceLine(n2 + Tab + s2) then [n2] else [])
  {
    var l1, l2 := n1 + Tab + s1, n2 + Tab + s2;
    var lines := [l1, l2, ""];
    assert lines[..2] == [l1, l2] && [l1, l2][..1] == [l1] && [l1][..0] == [];
    DeviceIdOfLine(n1, s1);
    DeviceIdOfLine(n2, s2);
    assert DeviceIds([l1]) == (if IsDeviceLine(l1) then [n1] else []);
    assert DeviceIds([l1, l2]) == DeviceIds([l1]) + (if IsDeviceLine(l2) then [n2] else []);
    assert !IsDeviceLine("") by {
      assert !Contains("", DeviceMarker);
    }
  }

  /** The identifiers reported for a header and two `name<TAB>state` lines. */
  lemma TwoLineListing(header: string, n1: string, s1: string, n2: string, s2: string)
    requires '\n' !in header
    requires '\n' !in n1 && '\n' !in s1 && '\n' !in n2 && '\n' !in s2
    requires '\t' !in n1 && '\t' !in n2
    ensures ParseDevices(header + Newline + (n1 + Tab + s1) + Newline + (n2 + Tab + s2) + Newline)
         == (if IsDeviceLine(n1 + Tab + s1) then [n1] else [])
          + (if IsDeviceLine(n2 + Tab + s2) then [n2] else [])
  {
    ThreeLines(header, n1 + Tab + s1, n2 + Tab + s2);
    TwoLineIds(n1, s1, n2, s2);
  }

  /** A header, one attached device and one offline device: only the
      attached device is reported. */
  lemma ListingKeepsOnlyAttachedDevices()
    ensures ParseDevices(DevicesHeader + Newline + ("ABC123" + Tab + "device") + Newline
                         + ("XYZ999" + Tab + "offline") + Newline) == ["ABC123"]
  {
    TwoLineListing(DevicesHeader, "ABC123", "device", "XYZ999", "offline");
    DeviceLineState("ABC123", "device");
    DeviceLineState("XYZ999", "offline");
    assert "device"[..6] == "device";
    assert "offline"[..6] != "device" by { assert "offline"[0] != "device"[0]; }
  }

  /** A product-name line followed by a model line fills in both fields. */
  lemma NameThenModel(deviceId: string, l1: string, v1: string, l2: string, v2: string)
    requires '\n' !in l1 && '\n' !in l2
    requires Sets(ProductName, l1) && PropValue(l1) == Ok(v1)
    requires Sets(Model, l2) && PropValue(l2) == Ok(v2)
    ensures ParseDeviceInfo(deviceId, l1 + Newline + l2 + Newline) == Ok(DeviceInfo(deviceId, v1, v2))
  {
    TwoLines(l1, l2);
    var lines := [l1, l2, ""];
    assert lines[..2] == [l1, l2] && [l1, l2][..1] == [l1] && [l1][..0] == [];
    assert ScanProps([l1]) == Ok(DeviceInfo("", v1, ""));
    assert ScanProps([l1, l2]) == Ok(DeviceInfo("", v1, v2));
    assert !Contains("", ProductNameKey) && !Contains("", ModelKey);
  }

  /** `[key]: value` is a line that names the key and carries the value,
      provided the key holds no space and the value no separator. */
  lemma BracketedPair(key: string, value: string)
    requires ' ' !in key && !Contains(value, PropSeparator)
    ensures Contains("[" + key + "]" + PropSeparator + value, key)
    ensures PropValue("[" + key + "]" + PropSeparator + value) == Ok(value)
  {
    var k := "[" + key + "]";
    assert "[" + key + "]" + PropSeparator + value == "[" + key + ("]" + PropSeparator + value);
    ContainsInfix("[", key, "]" + PropSeparator + value);
    assert ' ' !in k;
    MissingCharNotContained(k, PropSeparator, ' ');
    PropValueOfPair(k, value);
  }

  /** The getprop line `[ro.product.name]: <value>`. */
  function NameLine(value: string): string
  {
    "[" + ProductNameKey + "]" + PropSeparator + value
  }

  /** The getprop line `[ro.product.model]: <value>`. */
  function ModelLine(value: string): string
  {
    "[" + ModelKey + "]" + PropSeparator + value
  }

  /** A name line sets the product name to its value. */
  lemma NameLineSetsName(name: string)
    requires !Contains(name, PropSeparator)
    ensures Sets(ProductName, NameLine(name)) && PropValue(NameLine(name)) == Ok(name)
  {
    BracketedPair(ProductNameKey, name);
  }

  /** A model line that does not also name the product-name key sets the
      model to its value. */
  lemma ModelLineSetsModel(model: string)
    requires !Contains(model, PropSeparator) && !Contains(ModelLine(model), ProductNameKey)
    ensures Sets(Model, ModelLine(model)) && PropValue(ModelLine(model)) == Ok(model)
  {
    BracketedPair(ModelKey, model);
  }

  /** The lines `[ro.product.name]: <name>` and `[ro.product.model]: <model>`
      give that product name and that model, as for "myphone" and "Pixel7".
      The values may be anything without a separator or a newline, as long as
      the model line does not also name the product-name key (the model test
      sits in the `else` branch). */
  lemma GetpropNameAndModel(deviceId: string, name: string, model: string)
    requires !Contains(name, PropSeparator) && '\n' !in name
    requires !Contains(model, PropSeparator) && '\n' !in model
    requires !Contains(ModelLine(model), ProductNameKey)
    ensures ParseDeviceInfo(deviceId, NameLine(name) + Newline + ModelLine(model) + Newline)
         == Ok(DeviceInfo(deviceId, name, model))
  {
    assert '\n' !in NameLine(name) && '\n' !in ModelLine(model);
    NameLineSetsName(name);
    ModelLineSetsModel(model);
    NameThenModel(deviceId, NameLine(name), name, ModelLine(model), model);
  }

  /** The identifiers collected from one `name<TAB>state` line and an empty
      one. */
  lemma OneLineIds(n: string, st: string)
    requires '\t' !in n
    ensures DeviceIds([n + Tab + st, ""]) == (if IsDeviceLine(n + Tab + st) then [n] else [])
  {
    var l := n + Tab + st;
    assert [l, ""][..1] == [l] && [l][..0] == [];
    DeviceIdOfLine(n, st);
    assert !IsDeviceLine("") by {
      assert !Contains("", DeviceMarker);
    }
  }

  /** The identifiers reported for a header and one `name<TAB>state` line. */
  lemma OneLineListing(header: string, n: string, st: string)
    requires '\n' !in header && '\n' !in n && '\n' !in st
    requires '\t' !in n
    ensures ParseDevices(header + Newline + (n + Tab + st) + Newline)
         == (if IsDeviceLine(n + Tab + st) then [n] else [])
  {
    var l := n + Tab + st;
    TwoLines(header, l);
    assert [header, l, ""][1..] == [l, ""];
    OneLineIds(n, st);
  }

  /** A listing of one attached device reports exactly that device. */
  lemma SingleAttachedDevice(id: string)
    requires '\t' !in id && '\n' !in id
    ensures ParseDevices(DevicesHeader + Newline + (id + Tab + "device") + Newline) == [id]
  {
    OneLineListing(DevicesHeader, id, "device");
    DeviceLineState(id, "device");
    assert "device"[..6] == "device";
  }

  /** With no serial, a listing of one attached device and a getprop output
      naming the product and model, the session is opened for that device
      with those properties. */
  lemma AutoSelectsListedDevice(cfg: Config, run: Runner, version: string,
                                id: string, name: string, model: string)
    requires run(cfg.adbPath, VersionArgs) == Ran(Banner + version)
    requires '\t' !in id && '\n' !in id
    requires run(cfg.adbPath, DevicesArgs) == Ran(DevicesHeader + Newline + (id + Tab + "device") + Newline)
    requires !Contains(name, PropSeparator) && '\n' !in name
    requires !Contains(model, PropSeparator) && '\n' !in model
    requires !Contains(ModelLine(model), ProductNameKey)
    requires run(cfg.adbPath, GetpropArgs(id)) == Ran(NameLine(name) + Newline + ModelLine(model) + Newline)
    ensures NewScrcpy(cfg, run, []) == Ok(ScrClient(id, DeviceInfo(id, name, model), None, ""))
  {
    assert "" + Banner + version == Banner + version;
    ContainsInfix("", Banner, version);
    assert CheckAdb(cfg, run) == Pass;
    SingleAttachedDevice(id);
    assert FirstDevice(cfg, run) == Ok(id);
    GetpropNameAndModel(id, name, model);
  }
}
