/**
 * The deterministic part of the intent resolver: the reply of the language model
 * is cleaned of markdown code fences and stripped before it is parsed as JSON,
 * and a failed model call or a failed parse both yield "no decision". The device
 * catalogue is rendered into the prompt one line per device.
 */
module Intent {
  import opened Wrappers
  import opened PyStr

  /** A JSON object of the decision, with string values. */
  type Obj = map<string, string>

  /** The JSON value the parsed reply may be: one object or a list of objects. */
  datatype Json = Object(fields: Obj) | Array(items: seq<Obj>)

  /** The resolver's result; None when the model call or the JSON parse failed. */
  type Decision = Option<Json>

  const FENCE: string := "```"
  const JSON_FENCE: string := "```json"

  /** Removes the opening fence marker first and then every bare fence marker, then strips. */
  function Clean(reply: string): (cleaned: string) {
    Strip(RemoveAll(RemoveAll(reply, JSON_FENCE), FENCE))
  }

  /**
   * Keeping a backtick that does not start a fence leaves no two backticks at the
   * front of what follows it.
   */
  lemma KeptBacktickBreaksFence(s: string)
    requires s != [] && s[0] == '`' && !IsPrefix(FENCE, s)
    ensures !IsPrefix("``", RemoveAll(s[1..], FENCE))
  {
    var t := s[1..];
    if t != [] {
      assert !IsPrefix(FENCE, t);
      var r := RemoveAll(t, FENCE);
      assert r == [t[0]] + RemoveAll(t[1..], FENCE);
      assert r[0] == t[0];
      if t[0] == '`' {
        var u := t[1..];
        if u != [] {
          assert u[0] != '`' by {
            assert s[..3] == [s[0], t[0], u[0]];
          }
          assert !IsPrefix(FENCE, u);
          assert r == [t[0]] + ([u[0]] + RemoveAll(u[1..], FENCE));
          assert r[1] == u[0];
        } else {
          assert |r| == 1;
        }
      }
    }
  }

  /** After every fence marker is removed, none is left. */
  lemma {:induction false} NoFenceAfterRemoval(s: string)
    ensures !Contains(RemoveAll(s, FENCE), FENCE)
    decreases |s|
  {
    if s == [] {
      ContainsNoLonger([], FENCE);
    } else if IsPrefix(FENCE, s) {
      NoFenceAfterRemoval(s[3..]);
    } else {
      var rest := RemoveAll(s[1..], FENCE);
      NoFenceAfterRemoval(s[1..]);
      assert RemoveAll(s, FENCE) == [s[0]] + rest;
      if s[0] == '`' {
        KeptBacktickBreaksFence(s);
      }
      assert ([s[0]] + rest)[1..] == rest;
    }
  }

  /** The cleaned reply holds neither marker. */
  lemma CleanLeavesNoFence(reply: string)
    ensures !Contains(Clean(reply), FENCE)
    ensures !Contains(Clean(reply), JSON_FENCE)
  {
    var removed := RemoveAll(RemoveAll(reply, JSON_FENCE), FENCE);
    NoFenceAfterRemoval(RemoveAll(reply, JSON_FENCE));
    var b := StripBounds(removed);
    ContainsInSlice(removed, b.0, b.1, FENCE);
    ContainsPrefixOf(Clean(reply), JSON_FENCE, FENCE);
  }

  /** A reply holding no fence marker is only stripped. */
  lemma CleanWithoutFence(reply: string)
    requires !Contains(reply, FENCE)
    ensures Clean(reply) == Strip(reply)
  {
    ContainsPrefixOf(reply, JSON_FENCE, FENCE);
  }

  /** Removing fences from text without a fence followed by one closing fence gives back the text. */
  lemma {:induction false} ClosingFenceRemoved(b: string)
    requires !Contains(b, FENCE)
    ensures RemoveAll(b + FENCE, FENCE) == b
    decreases |b|
  {
    var s := b + FENCE;
    if b == [] {
      assert s == FENCE;
      assert FENCE[3..] == [];
    } else if IsPrefix(FENCE, s) {
      assert s[3..] == b by {
        if |b| == 1 {
          assert b[0] == s[0] == '`';
          assert b == "`";
        } else {
          assert b[0] == s[0] == '`' && b[1] == s[1] == '`';
          assert b == "``";
        }
      }
    } else {
      assert s[1..] == b[1..] + FENCE;
      ClosingFenceRemoved(b[1..]);
      assert b == [b[0]] + b[1..];
    }
  }

  /** An opening marker in text followed by a closing fence lies inside the text itself. */
  lemma JsonFenceBeforeClosing(b: string)
    ensures Contains(b + FENCE, JSON_FENCE) ==> Contains(b, FENCE)
  {
    var s := b + FENCE;
    ContainsIff(s, JSON_FENCE);
    ContainsIff(b, FENCE);
    if Contains(s, JSON_FENCE) {
      var k :| OccursAt(s, JSON_FENCE, k);
      assert s[k..k + 3] == s[k..k + 7][..3] == FENCE;
      assert s[k..k + 3] == b[k..k + 3];
      assert OccursAt(b, FENCE, k);
    }
  }

  /** Removing both markers from a "```json ... ```" block leaves its content. */
  lemma FencesRemovedFromBlock(body: string)
    requires !Contains(body, FENCE)
    ensures RemoveAll(RemoveAll(JSON_FENCE + body + FENCE, JSON_FENCE), FENCE) == body
  {
    var s := JSON_FENCE + body + FENCE;
    var inner := body + FENCE;
    assert IsPrefix(JSON_FENCE, s) && s[7..] == inner by {
      assert s == JSON_FENCE + inner;
      assert s[..7] == JSON_FENCE;
    }
    assert RemoveAll(s, JSON_FENCE) == inner by {
      JsonFenceBeforeClosing(body);
    }
    ClosingFenceRemoved(body);
  }

  /**
   * JSON wrapped in a "```json ... ```" block cleans to the same text as the
   * unwrapped JSON, as long as the JSON itself holds no fence marker.
   */
  lemma CleanFencedBlock(body: string)
    requires !Contains(body, FENCE)
    ensures Clean(JSON_FENCE + body + FENCE) == Clean(body) == Strip(body)
  {
    FencesRemovedFromBlock(body);
    CleanWithoutFence(body);
  }

  /**
   * The resolver: `reply` is the model's reply text, None when the call raised,
   * and `loads` is the JSON parser, None when parsing raised.
   */
  function ResolveIntent(reply: Option<string>, loads: string -> Option<Json>): (d: Decision)
    ensures reply.None? ==> d.None?
  {
    match reply
    case None => None
    case Some(text) => loads(Clean(text))
  }

  /** Fenced and unfenced replies holding the same JSON text resolve alike. */
  lemma ResolveIgnoresFence(body: string, loads: string -> Option<Json>)
    requires !Contains(body, FENCE)
    ensures ResolveIntent(Some(JSON_FENCE + body + FENCE), loads) == ResolveIntent(Some(body), loads)
  {
    CleanFencedBlock(body);
  }

  /** One prompt line for a device. */
  function DeviceLine(name: string, entityId: string): (line: string) {
    "- " + name + " (" + entityId + ")"
  }

  /** The device catalogue (name, entity id), in the catalogue's order, as prompt lines. */
  function DeviceListText(devices: seq<(string, string)>): (text: string) {
    Join("\n", seq(|devices|, i requires 0 <= i < |devices| => DeviceLine(devices[i].0, devices[i].1)))
  }

  /** With no newline in any name or entity id, the text has exactly one line per device. */
  lemma DeviceListOneLinePerDevice(devices: seq<(string, string)>)
    requires |devices| > 0
    requires forall i :: 0 <= i < |devices| ==> '\n' !in devices[i].0 && '\n' !in devices[i].1
    ensures CountChar(DeviceListText(devices), '\n') == |devices| - 1
  {
    var lines := seq(|devices|, i requires 0 <= i < |devices| => DeviceLine(devices[i].0, devices[i].1));
    forall i | 0 <= i < |lines| ensures '\n' !in lines[i] {
      assert lines[i] == "- " + devices[i].0 + " (" + devices[i].1 + ")";
    }
    JoinCountsSeparators('\n', lines);
  }
}
