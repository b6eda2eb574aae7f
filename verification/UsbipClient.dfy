/** client/app/usbip_client.py: attaching, the live port map, and the host's tmpfiles.d entry. */
module UsbipClient {
  import opened Text

  type Port = nat

  datatype AttachedPort = AttachedPort(port: Port, local: string)

  // ------------------------------------------------------------- attaching

  /** `CommandError` carries the command's output. */
  datatype Outcome = Attached(port: Port, local: string) | CommandError(output: string)

  predicate IsNew(before: seq<AttachedPort>, p: AttachedPort) {
    forall b :: b in before ==> b.port != p.port
  }

  const POLLS := 10
  const NO_PORT := "usbip attach reported success but no new local port appeared: "

  /** Nobody else attaches: whatever new port a listing shows is `own`. */
  ghost predicate OnlyNew(before: seq<AttachedPort>, poll: nat -> seq<AttachedPort>, own: AttachedPort) {
    forall k, p :: 0 <= k < POLLS && p in poll(k) && IsNew(before, p) ==> p == own
  }

  /**
   * Snapshot, run the command, then poll until a port shows up that the snapshot did not have.
   * `output` is what the command printed, stripped; `poll(k)` is the k-th listing after the command.
   */
  method Attach(before: seq<AttachedPort>, commandOk: bool, output: string, poll: nat -> seq<AttachedPort>) returns (r: Outcome)
    ensures r.CommandError? <==> !commandOk || forall k, p :: 0 <= k < 10 && p in poll(k) ==> !IsNew(before, p)
    ensures !commandOk ==> r == CommandError(if output == "" then "usbip attach failed" else output)
    ensures commandOk && r.CommandError? ==> r.output == NO_PORT + output
    ensures r.Attached? ==> exists k ::
      0 <= k < 10
      && (forall j, p :: 0 <= j < k && p in poll(j) ==> !IsNew(before, p))
      && AttachedPort(r.port, r.local) in poll(k) && IsNew(before, AttachedPort(r.port, r.local))
      && forall p :: p in poll(k) && IsNew(before, p) ==> r.port <= p.port
    ensures forall own :: OnlyNew(before, poll, own) && r.Attached? ==> AttachedPort(r.port, r.local) == own
  {
    if !commandOk { return CommandError(if output == "" then "usbip attach failed" else output); }
    for k := 0 to POLLS
      invariant forall j, p :: 0 <= j < k && p in poll(j) ==> !IsNew(before, p)
    {
      var listing := poll(k);
      var lowest: Option<AttachedPort> := None;
      for i := 0 to |listing|
        invariant lowest.None? ==> forall j :: 0 <= j < i ==> !IsNew(before, listing[j])
        invariant lowest.Some? ==> lowest.value in listing && IsNew(before, lowest.value)
        invariant lowest.Some? ==> forall j :: 0 <= j < i && IsNew(before, listing[j]) ==> lowest.value.port <= listing[j].port
      {
        if IsNew(before, listing[i]) && (lowest.None? || listing[i].port < lowest.value.port) {
          lowest := Some(listing[i]);
        }
      }
      if lowest.Some? {
        return Attached(lowest.value.port, lowest.value.local);
      }
    }
    return CommandError(NO_PORT + output);
  }

  /** `live_port_map`: later entries of the listing win. */
  function LivePortMap(ports: seq<AttachedPort>): (live: map<Port, string>)
    ensures forall p :: p in live ==> AttachedPort(p, live[p]) in ports
    ensures forall a :: a in ports ==> a.port in live
  {
    if ports == [] then map[]
    else LivePortMap(ports[..|ports| - 1])[ports[|ports| - 1].port := ports[|ports| - 1].local]
  }

  /** Entry `i` is the last of the listing on its port. */
  ghost predicate LastOnPort(ports: seq<AttachedPort>, i: int) {
    0 <= i < |ports| && forall j :: i < j < |ports| ==> ports[j].port != ports[i].port
  }

  lemma {:induction false} LastListedWins(ports: seq<AttachedPort>, i: int)
    requires LastOnPort(ports, i)
    ensures ports[i].port in LivePortMap(ports) && LivePortMap(ports)[ports[i].port] == ports[i].local
  {
    var init := ports[..|ports| - 1];
    if i < |init| {
      assert forall j :: 0 <= j < |init| ==> init[j] == ports[j];
      LastListedWins(init, i);
    }
  }

  // ---------------------------------------------------------- stable nodes

  datatype StableNode = StableNode(target: string, major: nat, minor: nat, mode: nat, uid: nat, gid: nat)

  /** What systemd recreates at boot from one `c` line. */
  datatype DeviceEntry = DeviceEntry(mode: nat, uid: nat, gid: nat, major: nat, minor: nat)

  function EntryOf(n: StableNode): DeviceEntry {
    DeviceEntry(n.mode, n.uid, n.gid, n.major, n.minor)
  }

  const NODE_DIR := "/dev/usbip-web"

  /** The lines above the entries: comments and one `d` line for the directory. Their wording is not modelled. */
  predicate IsHeader(header: seq<string>) {
    forall line :: line in header ==> line != "" && (line[0] == '#' || line[0] == 'd') && '\n' !in line
  }

  function Fields(key: string, n: StableNode): seq<string> {
    ["c", NODE_DIR + "/" + key, Padded(Numeral(n.mode, 8), 4), Numeral(n.uid, 10), Numeral(n.gid, 10), "-",
     Numeral(n.major, 10) + ":" + Numeral(n.minor, 10)]
  }

  function CommentLine(key: string, target: string): string {
    "# " + key + ": last mirrored " + target
  }

  function EntryLine(key: string, n: StableNode): string {
    Join(Fields(key, n), ' ')
  }

  function NodeLines(key: string, n: StableNode): seq<string> {
    if n.target != "" then [CommentLine(key, n.target), EntryLine(key, n)] else [EntryLine(key, n)]
  }

  /** The blocks of all keys, one after another. */
  function Blocks(keys: seq<string>, block: string -> seq<string>): seq<string> {
    if keys == [] then [] else Blocks(keys[..|keys| - 1], block) + block(keys[|keys| - 1])
  }

  function BlockOf(nodes: map<string, StableNode>): string -> seq<string> {
    (k: string) => if k in nodes then NodeLines(k, nodes[k]) else []
  }

  /** The file's text for a node map. */
  function Render(header: seq<string>, nodes: map<string, StableNode>): string
    requires header != []
  {
    Join(header + Blocks(Sorted(nodes.Keys), BlockOf(nodes)), '\n') + "\n"
  }

  class TmpfilesHost {
    const header: seq<string>
    var mounted: bool
    var conf: Option<string>
    var rewrites: nat

    constructor (header: seq<string>, mounted: bool, conf: Option<string>)
      ensures this.header == header && this.mounted == mounted && this.conf == conf && rewrites == 0
    {
      this.header := header;
      this.mounted, this.conf, rewrites := mounted, conf, 0;
    }

    method AppendNode(lines: seq<string>, key: string, nodes: map<string, StableNode>) returns (r: seq<string>)
      requires key in nodes
      ensures r == lines + BlockOf(nodes)(key)
    {
      var n := nodes[key];
      r := lines;
      if n.target != "" {
        r := r + [CommentLine(key, n.target)];
      }
      r := r + [EntryLine(key, n)];
      assert r == lines + NodeLines(key, n);
    }

    /** The loop over `sorted(nodes)`. */
    method Lines(nodes: map<string, StableNode>) returns (lines: seq<string>)
      ensures lines == header + Blocks(Sorted(nodes.Keys), BlockOf(nodes))
    {
      lines := LinesFor(Sorted(nodes.Keys), nodes, BlockOf(nodes));
    }

    method LinesFor(keys: seq<string>, nodes: map<string, StableNode>, ghost block: string -> seq<string>)
      returns (lines: seq<string>)
      requires block == BlockOf(nodes) && forall k :: k in keys ==> k in nodes
      ensures lines == header + Blocks(keys, block)
    {
      lines := header;
      for i := 0 to |keys|
        invariant lines == header + Blocks(keys[..i], block)
      {
        ghost var before := lines;
        lines := AppendNode(lines, keys[i], nodes);
        BlocksSnoc(keys, i, block);
        assert lines == before + block(keys[i]);
        assert before + block(keys[i]) == header + (Blocks(keys[..i], block) + block(keys[i]));
      }
      assert keys[..|keys|] == keys;
    }

    /** Replaces the file only when its text differs; `replaceRaises` is an `OSError` on the way. */
    method WriteConf(nodes: map<string, StableNode>, replaceRaises: bool) returns (ok: bool)
      requires header != []
      modifies this`conf, this`rewrites
      ensures ok <==> mounted && (old(conf) == Some(Render(header, nodes)) || !replaceRaises)
      ensures ok ==> conf == Some(Render(header, nodes))
      ensures !ok ==> conf == old(conf)
      ensures rewrites == old(rewrites) + if ok && old(conf) != Some(Render(header, nodes)) then 1 else 0
    {
      if !mounted { return false; }
      var lines := Lines(nodes);
      var content := Join(lines, '\n') + "\n";
      if conf == Some(content) { return true; }
      if replaceRaises { return false; }
      conf := Some(content);
      rewrites := rewrites + 1;
      return true;
    }
  }

  lemma BlocksSnoc(keys: seq<string>, i: nat, block: string -> seq<string>)
    requires i < |keys|
    ensures Blocks(keys[..i + 1], block) == Blocks(keys[..i], block) + block(keys[i])
  {
    assert keys[..i + 1][..i] == keys[..i];
  }

  // ------------------------------------------------- reading the file back

  /** One line as systemd-tmpfiles reads it: only `c` lines under the node directory are entries. */
  function DecodeLine(line: string): Option<(string, DeviceEntry)> {
    var f := Split(line, ' ');
    var base := NODE_DIR + "/";
    if |f| != 7 || f[0] != "c" || !(base <= f[1]) then None
    else
      var numbers := Split(f[6], ':');
      if |numbers| != 2 then None
      else match (ParseNumeral(f[2], 8), ParseNumeral(f[3], 10), ParseNumeral(f[4], 10),
                  ParseNumeral(numbers[0], 10), ParseNumeral(numbers[1], 10))
        case (Some(mode), Some(uid), Some(gid), Some(major), Some(minor)) =>
          Some((f[1][|base|..], DeviceEntry(mode, uid, gid, major, minor)))
        case _ => None
  }

  function DecodeLines(lines: seq<string>): map<string, DeviceEntry> {
    if lines == [] then map[]
    else
      var before := DecodeLines(lines[..|lines| - 1]);
      match DecodeLine(lines[|lines| - 1])
      case None => before
      case Some((key, entry)) => before[key := entry]
  }

  function Decode(text: string): map<string, DeviceEntry> {
    DecodeLines(Split(text, '\n'))
  }

  function Entries(nodes: map<string, StableNode>): map<string, DeviceEntry> {
    map k | k in nodes :: EntryOf(nodes[k])
  }

  /** Generated ids are hexadecimal, and device paths under /dev carry no newline. */
  ghost predicate Plain(nodes: map<string, StableNode>) {
    forall k :: k in nodes ==> ' ' !in k && '\n' !in k && '\n' !in nodes[k].target
  }

  lemma DigitsOnly(s: string)
    requires forall c :: c in s ==> IsDigit(c)
    ensures ' ' !in s && '\n' !in s && ':' !in s
  {
  }

  lemma FieldsArePlain(key: string, n: StableNode)
    requires ' ' !in key && '\n' !in key
    ensures forall f :: f in Fields(key, n) ==> ' ' !in f && '\n' !in f
  {
    DigitsOnly(Padded(Numeral(n.mode, 8), 4));
    DigitsOnly(Numeral(n.uid, 10));
    DigitsOnly(Numeral(n.gid, 10));
    DigitsOnly(Numeral(n.major, 10));
    DigitsOnly(Numeral(n.minor, 10));
  }

  lemma EntryLineDecodes(key: string, n: StableNode)
    requires ' ' !in key && '\n' !in key
    ensures DecodeLine(EntryLine(key, n)) == Some((key, EntryOf(n)))
  {
    var f := Fields(key, n);
    FieldsArePlain(key, n);
    SplitOfJoin(f, ' ');
    var major, minor := Numeral(n.major, 10), Numeral(n.minor, 10);
    DigitsOnly(major);
    DigitsOnly(minor);
    SplitFirst(major, minor, ':');
    SplitWhole(minor, ':');
    assert f[6] == major + [':'] + minor;
    NumeralParses(n.mode, 8);
    PaddingParses(Numeral(n.mode, 8), 4, 8);
    NumeralParses(n.uid, 10);
    NumeralParses(n.gid, 10);
    NumeralParses(n.major, 10);
    NumeralParses(n.minor, 10);
    assert f[1][|NODE_DIR + "/"|..] == key;
  }

  lemma HeaderLineDecodesToNothing(line: string)
    requires line != "" && line[0] != 'c'
    ensures DecodeLine(line).None?
  {
    assert Split(line, ' ')[0] == "" || Split(line, ' ')[0][0] == line[0];
  }

  lemma DecodeAppend(lines: seq<string>, line: string)
    ensures DecodeLines(lines + [line]) ==
      match DecodeLine(line) { case None => DecodeLines(lines) case Some((k, e)) => DecodeLines(lines)[k := e] }
  {
    assert (lines + [line])[..|lines|] == lines;
  }

  lemma {:induction false} HeaderDecodesToNothing(header: seq<string>)
    requires IsHeader(header)
    ensures DecodeLines(header) == map[]
  {
    if header != [] {
      var init := header[..|header| - 1];
      assert IsHeader(init) by {
        forall line | line in init
          ensures line != "" && (line[0] == '#' || line[0] == 'd') && '\n' !in line
        {
          assert line in header;
        }
      }
      HeaderDecodesToNothing(init);
      HeaderLineDecodesToNothing(header[|header| - 1]);
    }
  }

  lemma CommentLineIsIgnored(key: string, target: string)
    requires '\n' !in key && '\n' !in target
    ensures DecodeLine(CommentLine(key, target)).None? && '\n' !in CommentLine(key, target)
  {
    HeaderLineDecodesToNothing(CommentLine(key, target));
  }

  lemma EntryLineIsPlain(key: string, n: StableNode)
    requires ' ' !in key && '\n' !in key
    ensures '\n' !in EntryLine(key, n)
  {
    FieldsArePlain(key, n);
    JoinHasNo(Fields(key, n), ' ', '\n');
  }

  lemma NodeLinesDecode(lines: seq<string>, key: string, n: StableNode)
    requires ' ' !in key && '\n' !in key && '\n' !in n.target
    ensures DecodeLines(lines + NodeLines(key, n)) == DecodeLines(lines)[key := EntryOf(n)]
    ensures forall l :: l in NodeLines(key, n) ==> '\n' !in l
  {
    var entry := EntryLine(key, n);
    EntryLineDecodes(key, n);
    EntryLineIsPlain(key, n);
    if n.target != "" {
      var comment := CommentLine(key, n.target);
      CommentLineIsIgnored(key, n.target);
      DecodeAppend(lines, comment);
      DecodeAppend(lines + [comment], entry);
      assert lines + NodeLines(key, n) == lines + [comment] + [entry];
    } else {
      DecodeAppend(lines, entry);
    }
  }

  lemma {:induction false} JoinHasNo(parts: seq<string>, sep: char, c: char)
    requires parts != [] && c != sep && forall p :: p in parts ==> c !in p
    ensures c !in Join(parts, sep)
  {
    if |parts| > 1 {
      JoinHasNo(parts[1..], sep, c);
    }
  }

  /**
   * Rendering block by block decodes to the entries, for any reading `decode` that starts empty after the
   * header and takes each block as one more entry under its key.
   */
  lemma {:induction false} BlocksDecode(
      decode: seq<string> -> map<string, DeviceEntry>, header: seq<string>, keys: seq<string>,
      block: string -> seq<string>, entries: map<string, DeviceEntry>)
    requires decode(header) == map[]
    requires forall k :: k in keys ==> k in entries
    requires forall k, lines :: k in keys ==> decode(lines + block(k)) == decode(lines)[k := entries[k]]
    ensures decode(header + Blocks(keys, block)) == map k | k in keys :: entries[k]
  {
    if keys == [] {
      assert header + [] == header;
    } else {
      var init, last := keys[..|keys| - 1], keys[|keys| - 1];
      BlocksDecode(decode, header, init, block, entries);
      var before := header + Blocks(init, block);
      assert header + Blocks(keys, block) == before + block(last);
      assert keys == init + [last];
      assert decode(before + block(last)) == decode(before)[last := entries[last]];
    }
  }

  lemma {:induction false} BlocksHaveNoNewline(keys: seq<string>, block: string -> seq<string>)
    requires forall k, l :: k in keys && l in block(k) ==> '\n' !in l
    ensures forall l :: l in Blocks(keys, block) ==> '\n' !in l
  {
    if keys != [] { BlocksHaveNoNewline(keys[..|keys| - 1], block); }
  }

  lemma LinesDecode(header: seq<string>, keys: seq<string>, nodes: map<string, StableNode>)
    requires IsHeader(header) && Plain(nodes) && forall k :: k in keys ==> k in nodes
    ensures DecodeLines(header + Blocks(keys, BlockOf(nodes))) == map k | k in keys :: EntryOf(nodes[k])
    ensures forall l :: l in Blocks(keys, BlockOf(nodes)) ==> '\n' !in l
  {
    HeaderDecodesToNothing(header);
    EachBlockDecodes(keys, nodes);
    BlocksDecode(DecodeLines, header, keys, BlockOf(nodes), Entries(nodes));
    BlocksHaveNoNewline(keys, BlockOf(nodes));
  }

  lemma EachBlockDecodes(keys: seq<string>, nodes: map<string, StableNode>)
    requires Plain(nodes) && forall k :: k in keys ==> k in nodes
    ensures forall k, lines :: k in keys ==> DecodeLines(lines + BlockOf(nodes)(k)) == DecodeLines(lines)[k := Entries(nodes)[k]]
    ensures forall k, l :: k in keys && l in BlockOf(nodes)(k) ==> '\n' !in l
  {
    forall k | k in keys
      ensures forall lines :: DecodeLines(lines + BlockOf(nodes)(k)) == DecodeLines(lines)[k := Entries(nodes)[k]]
      ensures forall l :: l in BlockOf(nodes)(k) ==> '\n' !in l
    {
      BlockDecodes(k, nodes);
    }
  }

  lemma BlockDecodes(k: string, nodes: map<string, StableNode>)
    requires Plain(nodes) && k in nodes
    ensures forall lines :: DecodeLines(lines + BlockOf(nodes)(k)) == DecodeLines(lines)[k := Entries(nodes)[k]]
    ensures forall l :: l in BlockOf(nodes)(k) ==> '\n' !in l
  {
    assert BlockOf(nodes)(k) == NodeLines(k, nodes[k]) && Entries(nodes)[k] == EntryOf(nodes[k]);
    forall lines
      ensures DecodeLines(lines + NodeLines(k, nodes[k])) == DecodeLines(lines)[k := EntryOf(nodes[k])]
    {
      NodeLinesDecode(lines, k, nodes[k]);
    }
    NodeLinesDecode([], k, nodes[k]);
  }

  lemma TextDecodes(lines: seq<string>)
    requires lines != [] && forall l :: l in lines ==> '\n' !in l
    ensures Decode(Join(lines, '\n') + "\n") == DecodeLines(lines)
  {
    JoinAppendEmpty(lines, '\n');
    SplitOfJoin(lines + [""], '\n');
    DecodeAppend(lines, "");
    assert DecodeLine("").None?;
  }

  /** The text decodes to exactly the node map it was rendered from. */
  lemma RenderDecodes(header: seq<string>, nodes: map<string, StableNode>)
    requires header != [] && IsHeader(header) && Plain(nodes)
    ensures Decode(Render(header, nodes)) == Entries(nodes)
  {
    var keys := Sorted(nodes.Keys);
    LinesDecode(header, keys, nodes);
    var lines := header + Blocks(keys, BlockOf(nodes));
    assert forall l :: l in lines ==> l in header || l in Blocks(keys, BlockOf(nodes));
    TextDecodes(lines);
    assert Entries(nodes) == map k | k in keys :: EntryOf(nodes[k]);
  }

  lemma {:induction false} JoinAppendEmpty(parts: seq<string>, sep: char)
    requires parts != []
    ensures Join(parts + [""], sep) == Join(parts, sep) + [sep]
  {
    if |parts| > 1 {
      JoinAppendEmpty(parts[1..], sep);
      assert (parts + [""])[1..] == parts[1..] + [""];
    } else {
      assert (parts + [""])[1..] == [""];
    }
  }

  /** Equal text means equal entries, so leaving the file alone on equal text is sound. */
  lemma EqualTextEqualEntries(header: seq<string>, a: map<string, StableNode>, b: map<string, StableNode>)
    requires header != [] && IsHeader(header) && Plain(a) && Plain(b)
    requires Render(header, a) == Render(header, b)
    ensures Entries(a) == Entries(b)
  {
    RenderDecodes(header, a);
    RenderDecodes(header, b);
  }
}
