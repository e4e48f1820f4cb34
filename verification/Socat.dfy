/**
 What the helper's script tells the shell to run: a reader of `socat` commands, and what
 it reads from the scripts the program writes (internal/forward.go).
 */
module Socat {
  import opened Wrappers
  import opened Text
  import opened Order
  import opened Ports
  import opened Config
  import Range = SourceRange

  /** One listener: what it listens on, with which options, what it dials, and the flag before both. */
  datatype Listener = Listener(
    flag: Option<(string, string)>,
    protocol: string,
    port: GoInt,
    options: seq<string>,
    dialProtocol: string,
    host: string,
    dialPort: GoInt)

  // --------------------------------------------------------------------- reading

  /** A script is the trap, any number of commands, and the wait. */
  function ReadScript(script: string): Option<seq<Listener>> {
    var words := Fields(script);
    if |words| >= 4 && words[..4] == ["trap", "'kill", "0'", "EXIT;"] then ReadCommands(words[4..]) else None
  }

  function ReadCommands(words: seq<string>): Option<seq<Listener>> {
    if words == ["wait"] then Some([])
    else
      var flagged := |words| >= 3 && (words[1] == "-T" || words[1] == "-t");
      var at := if flagged then 3 else 1;
      if |words| >= at + 3 && words[0] == "socat" && words[at + 2] == "&" then
        var flag := if flagged then Some((words[1], words[2])) else None;
        match ReadCommand(flag, words[at], words[at + 1])
        case None => None
        case Some(l) =>
          match ReadCommands(words[at + 3..])
          case None => None
          case Some(rest) => Some([l] + rest)
      else None
  }

  /** The two addresses of a command, its options being those of the first. */
  function ReadCommand(flag: Option<(string, string)>, listen: string, dial: string): Option<Listener> {
    var parts := Split(listen, ',');
    var colon, first, last := Index(parts[0], ':'), Index(dial, ':'), LastIndex(dial, ':');
    if colon < 0 || first < 0 || first == last then None
    else
      var listens, dials := ListenProtocol(parts[0][..colon]), DialProtocol(dial[..first]);
      var port, dialPort := Atoi(parts[0][colon + 1..]), Atoi(dial[last + 1..]);
      if listens.None? || dials.None? || port.None? || dialPort.None? then None
      else
        Some(Listener(flag, listens.value, port.value, parts[1..], dials.value, dial[first + 1..last],
                      dialPort.value))
  }

  function ListenProtocol(s: string): Option<string> {
    if s == "TCP-LISTEN" then Some("tcp") else if s == "UDP-LISTEN" then Some("udp") else None
  }

  function DialProtocol(s: string): Option<string> {
    if s == "TCP" then Some("tcp") else if s == "UDP" then Some("udp") else None
  }

  /** The range of clients that listener options accept: of an IPv6 one, the address stands in brackets. */
  function ReadRange(n: Range.Netip, options: seq<string>): Option<Range.Prefix> {
    if options == [] then Some(Range.NoPrefix)
    else if |options| != 2 then None
    else if options[0] == "pf=ip4" && "range=" <= options[1] then
      OfFamily(n.parsePrefix(options[1][6..]), Range.V4)
    else if options[0] == "pf=ip6" && "range=[" <= options[1] then
      var end := Index(options[1], ']');
      if end < 7 then None else OfFamily(n.parsePrefix(options[1][7..end] + options[1][end + 1..]), Range.V6)
    else None
  }

  function OfFamily(p: Option<Range.Prefix>, family: Range.Family): Option<Range.Prefix> {
    if p.Some? && p.value.Prefix? && p.value.addr.family == family then p else None
  }

  // ------------------------------------------------------------------ what is read

  /** The options of a listener that accepts clients of a range only. */
  function RangeWords(n: Range.Netip, p: Range.Prefix): seq<string> {
    if p.NoPrefix? then []
    else if p.addr.family == Range.V4 then ["pf=ip4", "range=" + n.addrText(p.addr) + "/" + Itoa(p.bits)]
    else ["pf=ip6", "range=[" + n.addrText(p.addr) + "]/" + Itoa(p.bits)]
  }

  /** Names and numbers a shell takes for one word each. */
  predicate PlainWords(n: Range.Netip, h: HelperConfig) {
    && IsWord(h.targetAddress)
    && (h.halfClose.Some? ==> IsWord(h.halfClose.value))
    && (h.sourceRange.NoPrefix? || Range.ValidPrefix(h.sourceRange))
  }

  lemma DigitsAreWord(n: int)
    ensures IsWord(Itoa(n)) && ',' !in Itoa(n) && ':' !in Itoa(n)
  {
    ItoaPlain(n, ',');
    ItoaPlain(n, ':');
    assert forall k :: 0 <= k < |Itoa(n)| ==> Itoa(n)[k] == '-' || '0' <= Itoa(n)[k] <= '9';
  }

  /** The option text of a range adds its words to the list it is appended to. */
  lemma RangeIsSplit(n: Range.Netip, p: Range.Prefix, before: string)
    requires Range.Lawful(n) && (p.NoPrefix? || Range.ValidPrefix(p))
    ensures Split(before + Range.SocatRangeOptions(n, p), ',') == Split(before, ',') + RangeWords(n, p)
    ensures forall c :: c in Range.SocatRangeOptions(n, p) ==> !IsSpace(c)
  {
    if p.NoPrefix? {
      assert before + "" == before;
    } else {
      var a, b := n.addrText(p.addr), Itoa(p.bits);
      Range.NoSlashIn(a);
      DigitsAreWord(p.bits);
      if p.addr.family == Range.V4 {
        PlainOptions(a, b);
        assert Range.SocatRangeOptions(n, p) == ",pf=ip4,range=" + (a + "/" + b);
        TwoOptions(before, "pf=ip4", "range=" + a + "/" + b);
      } else {
        PlainOptions(a, b);
        assert Range.SocatRangeOptions(n, p) == ",pf=ip6,range=[" + a + "]/" + b;
        TwoOptions(before, "pf=ip6", "range=[" + a + "]/" + b);
      }
    }
  }

  /** A range is read back from its options. */
  lemma RangeIsRead(n: Range.Netip, p: Range.Prefix)
    requires Range.Lawful(n) && (p.NoPrefix? || Range.ValidPrefix(p))
    ensures ReadRange(n, RangeWords(n, p)) == Some(p)
  {
    if p.Prefix? {
      var a, b := n.addrText(p.addr), Itoa(p.bits);
      assert n.parsePrefix(Range.PrefixText(n, p)) == Some(p);
      if p.addr.family == Range.V4 {
        assert ("range=" + a + "/" + b)[6..] == a + "/" + b;
      } else {
        Range.NoSlashIn(a);
        BracketedIsCut(a, b);
      }
    }
  }

  lemma BracketedIsCut(a: string, b: string)
    requires ']' !in a
    ensures var t := "range=[" + a + "]/" + b;
            var end := Index(t, ']');
            end >= 7 && t[7..end] + t[end + 1..] == a + "/" + b && "range=[" <= t
  {
    var t := "range=[" + a + "]/" + b;
    assert t == "range=[" + a + [']'] + ("/" + b);
    FirstAt("range=[" + a, ']', "/" + b);
    assert t[7..7 + |a|] == a;
  }

  lemma PlainOptions(a: string, b: string)
    requires IsWord(a) && IsWord(b) && ',' !in a && ',' !in b
    ensures ",pf=ip4,range=" + (a + "/" + b) == "," + "pf=ip4" + "," + ("range=" + a + "/" + b)
    ensures ",pf=ip6,range=[" + a + "]/" + b == "," + "pf=ip6" + "," + ("range=[" + a + "]/" + b)
    ensures ',' !in "range=" + a + "/" + b && ',' !in "range=[" + a + "]/" + b
    ensures forall c :: c in ",pf=ip4,range=" + (a + "/" + b) ==> !IsSpace(c)
    ensures forall c :: c in ",pf=ip6,range=[" + a + "]/" + b ==> !IsSpace(c)
  {
  }

  lemma TwoOptions(before: string, x: string, y: string)
    requires ',' !in x && ',' !in y
    ensures Split(before + ("," + x + "," + y), ',') == Split(before, ',') + [x, y]
  {
    SplitConcat(before, x + [','] + y, ',');
    SplitConcat(x, y, ',');
    SplitWhole(x, ',');
    SplitWhole(y, ',');
    CommaTwice(before, x, y);
    assert [x] + [y] == [x, y];
  }

  lemma CommaTwice(before: string, x: string, y: string)
    ensures before + ("," + x + "," + y) == before + [','] + (x + [','] + y)
  {
    assert "," + x + "," + y == [','] + (x + [','] + y);
  }

  // ------------------------------------------------------------------ the addresses

  function ListenText(n: Range.Netip, p: Range.Prefix, kind: string, port: int): string {
    kind + Itoa(port) + ",fork,reuseaddr" + Range.SocatRangeOptions(n, p)
  }

  function DialText(kind: string, host: string, port: int): string {
    kind + host + ":" + Itoa(port)
  }

  lemma ListenIsSplit(n: Range.Netip, p: Range.Prefix, kind: string, port: int)
    requires Range.Lawful(n) && (p.NoPrefix? || Range.ValidPrefix(p)) && ',' !in kind
    ensures Split(ListenText(n, p, kind, port), ',') == [kind + Itoa(port), "fork", "reuseaddr"] + RangeWords(n, p)
  {
    var first := kind + Itoa(port);
    DigitsAreWord(port);
    OptionsAreSplit(first);
    RangeIsSplit(n, p, first + ",fork,reuseaddr");
  }

  lemma OptionsAreSplit(first: string)
    requires ',' !in first
    ensures Split(first + ",fork,reuseaddr", ',') == [first, "fork", "reuseaddr"]
  {
    SplitNested(first, "fork", "reuseaddr", ',');
    OptionsText();
    Regroup(first, [','], "fork" + [','] + "reuseaddr");
  }

  lemma OptionsText()
    ensures ",fork,reuseaddr" == [','] + ("fork" + [','] + "reuseaddr")
    ensures IsWord(",fork,reuseaddr")
  {
  }

  lemma ListenIsWord(n: Range.Netip, p: Range.Prefix, kind: string, port: int)
    requires Range.Lawful(n) && (p.NoPrefix? || Range.ValidPrefix(p)) && IsWord(kind)
    ensures IsWord(ListenText(n, p, kind, port)) && ListenText(n, p, kind, port)[0] == kind[0]
  {
    DigitsAreWord(port);
    OptionsText();
    WordsJoin(kind, Itoa(port));
    WordsJoin(kind + Itoa(port), ",fork,reuseaddr");
    RangeIsSplit(n, p, "");
    WordGrows(kind + Itoa(port) + ",fork,reuseaddr", Range.SocatRangeOptions(n, p));
  }

  lemma WordsJoin(w: string, v: string)
    requires IsWord(w) && IsWord(v)
    ensures IsWord(w + v)
  {
  }

  lemma WordGrows(w: string, t: string)
    requires IsWord(w) && forall c :: c in t ==> !IsSpace(c)
    ensures IsWord(w + t)
  {
    assert forall k :: 0 <= k < |t| ==> t[k] in t;
  }

  /** A text around its first and its last colon. */
  lemma AroundColons(a: string, b: string, c: string)
    requires ':' !in a && ':' !in c
    ensures var t := a + ":" + b + ":" + c;
            var first, last := Index(t, ':'), LastIndex(t, ':');
            && 0 <= first < last && t[..first] == a && t[first + 1..last] == b && t[last + 1..] == c
  {
    var t := a + ":" + b + ":" + c;
    LastAt(a + ":" + b, ':', c);
    Regroup(a + ":", b, ":" + c);
    Regroup(a + ":" + b, ":", c);
    FirstAt(a, ':', b + (":" + c));
    assert t[..|a| + 1 + |b|] == a + ":" + b;
  }

  lemma DialIsRead(kind: string, host: string, port: GoInt)
    requires ':' !in kind && IsWord(kind) && IsWord(host)
    ensures var t := DialText(kind + ":", host, port);
            var first, last := Index(t, ':'), LastIndex(t, ':');
            && IsWord(t) && 0 <= first < last
            && t[..first] == kind && t[first + 1..last] == host && Atoi(t[last + 1..]) == Some(port)
  {
    DigitsAreWord(port);
    AtoiItoa(port);
    AroundColons(kind, host, Itoa(port));
    WordsJoin(kind, ":");
    WordsJoin(kind + ":", host);
    WordsJoin(kind + ":" + host, ":");
    WordsJoin(kind + ":" + host + ":", Itoa(port));
  }

  /** What a command's two addresses say. */
  lemma CommandIsRead(n: Range.Netip, p: Range.Prefix, flag: Option<(string, string)>, listen: string, dial: string,
                      host: string, port: GoInt)
    requires Range.Lawful(n) && (p.NoPrefix? || Range.ValidPrefix(p)) && IsWord(host)
    requires ListenProtocol(listen).Some? && DialProtocol(dial).Some?
    ensures ReadCommand(flag, ListenText(n, p, listen + ":", port), DialText(dial + ":", host, port))
         == Some(Listener(flag, ListenProtocol(listen).value, port, ["fork", "reuseaddr"] + RangeWords(n, p),
                          DialProtocol(dial).value, host, port))
  {
    var listenText, dialText := ListenText(n, p, listen + ":", port), DialText(dial + ":", host, port);
    var options := ["fork", "reuseaddr"] + RangeWords(n, p);
    KindsArePlain(listen, dial);
    AtoiItoa(port);
    DialIsRead(dial, host, port);
    ListenIsRead(n, p, listen, port);
    AddressesAreRead(flag, listenText, dialText, listen, Itoa(port), options, dial, host, port);
  }

  lemma ListenIsRead(n: Range.Netip, p: Range.Prefix, listen: string, port: int)
    requires Range.Lawful(n) && (p.NoPrefix? || Range.ValidPrefix(p)) && ',' !in listen
    ensures Split(ListenText(n, p, listen + ":", port), ',')
         == [listen + ":" + Itoa(port)] + (["fork", "reuseaddr"] + RangeWords(n, p))
  {
    ListenIsSplit(n, p, listen + ":", port);
    Regroup([listen + ":" + Itoa(port)], ["fork", "reuseaddr"], RangeWords(n, p));
  }

  lemma AddressesAreRead(flag: Option<(string, string)>, listenText: string, dialText: string, listen: string,
                         portText: string, options: seq<string>, dial: string, host: string, port: GoInt)
    requires ListenProtocol(listen).Some? && DialProtocol(dial).Some?
    requires Split(listenText, ',') == [listen + ":" + portText] + options
    requires ':' !in listen && Atoi(portText) == Some(port)
    requires var first, last := Index(dialText, ':'), LastIndex(dialText, ':');
             && 0 <= first < last && dialText[..first] == dial && dialText[first + 1..last] == host
             && Atoi(dialText[last + 1..]) == Some(port)
    ensures ReadCommand(flag, listenText, dialText)
         == Some(Listener(flag, ListenProtocol(listen).value, port, options, DialProtocol(dial).value, host, port))
  {
    FirstAt(listen, ':', portText);
    assert ([listen + ":" + portText] + options)[1..] == options;
  }

  lemma KindsArePlain(listen: string, dial: string)
    requires ListenProtocol(listen).Some? && DialProtocol(dial).Some?
    ensures IsWord(listen) && ',' !in listen && ':' !in listen && listen[0] != '-' && listen[0] != 'w'
    ensures IsWord(dial) && ':' !in dial
  {
  }

  // -------------------------------------------------------------------- the commands

  /** The words of a command, and those of what follows it. */
  lemma CommandWords(before: string, listen: string, dial: string, t: string)
    requires IsWord(listen) && IsWord(dial)
    ensures Fields(before + " " + listen + " " + dial + " & " + t) == Fields(before) + [listen, dial, "&"] + Fields(t)
  {
    var s := before + " " + listen + " " + dial;
    assert Fields(s) == Fields(before) + [listen] + [dial] by {
      WordAfter(before, listen);
      WordAfter(before + " " + listen, dial);
    }
    AmpersandAfter(s, t);
    assert Fields(before) + [listen] + [dial] + ["&"] == Fields(before) + [listen, dial, "&"];
  }

  lemma AmpersandAfter(s: string, t: string)
    ensures Fields(s + " & " + t) == Fields(s) + ["&"] + Fields(t)
  {
    assert s + " & " + t == s + " " + "&" + " " + t;
    WordAfter(s, "&");
    FieldsConcat(s + " " + "&", t);
  }

  lemma FlagWords(flag: string, value: string)
    requires (flag == "-T" || flag == "-t") && IsWord(value)
    ensures Fields("socat " + flag + " " + value) == ["socat", flag, value]
  {
    SocatWord();
    assert "socat " + flag == "socat" + " " + flag;
    WordAfter("socat", flag);
    WordAfter("socat " + flag, value);
  }

  lemma SocatWord()
    ensures Fields("socat") == ["socat"]
  {
    FieldsWord("socat", "");
  }

  /** What stands before the addresses of a command: its name, and a flag with its value or none. */
  predicate StartsCommand(words: seq<string>, flag: Option<(string, string)>) {
    match flag
    case None => words == ["socat"]
    case Some(f) => words == ["socat", f.0, f.1] && (f.0 == "-T" || f.0 == "-t")
  }

  lemma FirstCommand(start: seq<string>, flag: Option<(string, string)>, listen: string, dial: string,
                     rest: seq<string>, l: Listener, ls: seq<Listener>)
    requires StartsCommand(start, flag) && listen != "-T" && listen != "-t"
    requires ReadCommand(flag, listen, dial) == Some(l) && ReadCommands(rest) == Some(ls)
    ensures ReadCommands(start + [listen, dial, "&"] + rest) == Some([l] + ls)
  {
    var words, n := start + [listen, dial, "&"] + rest, |start|;
    assert words[n] == listen && words[n + 1] == dial && words[n + 2] == "&" && words[n + 3..] == rest;
    assert words[0] == start[0];
    if flag.Some? {
      assert words[1] == start[1] && words[2] == start[2];
    }
  }

  lemma OneCommand(before: string, flag: Option<(string, string)>, listen: string, dial: string, t: string,
                   l: Listener, ls: seq<Listener>)
    requires StartsCommand(Fields(before), flag) && IsWord(listen) && IsWord(dial) && listen != "-T" && listen != "-t"
    requires ReadCommand(flag, listen, dial) == Some(l) && ReadCommands(Fields(t)) == Some(ls)
    ensures ReadCommands(Fields(before + " " + listen + " " + dial + " & " + t)) == Some([l] + ls)
  {
    CommandWords(before, listen, dial, t);
    FirstCommand(Fields(before), flag, listen, dial, Fields(t), l, ls);
  }

  /** What a key's command should say. */
  ghost function Expected(n: Range.Netip, h: HelperConfig, k: ProtoPort): Listener
    requires -INT_MAX - 1 <= k.port <= INT_MAX
  {
    var protocol := if k.protocol == "udp" then "udp" else "tcp";
    Listener(if k.protocol == "udp" then Some(("-T", Itoa(if h.udpSeconds <= 0 then 60 else h.udpSeconds)))
             else if h.halfClose.Some? then Some(("-t", h.halfClose.value)) else None,
             protocol, k.port, ["fork", "reuseaddr"] + RangeWords(n, h.sourceRange), protocol, h.targetAddress, k.port)
  }

  function Command(n: Range.Netip, h: HelperConfig, k: ProtoPort): string {
    SocatCommand(k, UdpSeconds(h), HalfCloseOption(h), Range.SocatRangeOptions(n, h.sourceRange), h.targetAddress)
  }

  lemma UdpCommandIsRead(n: Range.Netip, h: HelperConfig, k: ProtoPort, t: string, ls: seq<Listener>)
    requires Range.Lawful(n) && PlainWords(n, h) && -INT_MAX - 1 <= k.port <= INT_MAX && k.protocol == "udp"
    requires ReadCommands(Fields(t)) == Some(ls)
    ensures ReadCommands(Fields(Command(n, h, k) + t)) == Some([Expected(n, h, k)] + ls)
  {
    var value := Itoa(UdpSeconds(h));
    var before, flag := "socat " + "-T" + " " + value, Some(("-T", value));
    var listen := ListenText(n, h.sourceRange, "UDP-LISTEN" + ":", k.port);
    var dial := DialText("UDP" + ":", h.targetAddress, k.port);
    DigitsAreWord(UdpSeconds(h));
    FlagWords("-T", value);
    CommandIsRead(n, h.sourceRange, flag, "UDP-LISTEN", "UDP", h.targetAddress, k.port);
    AddressesAreWords(n, h, "UDP-LISTEN", "UDP", k.port);
    OneCommand(before, flag, listen, dial, t, Expected(n, h, k), ls);
    UdpCommandText(n, h, k);
  }

  lemma AddressesAreWords(n: Range.Netip, h: HelperConfig, listen: string, dial: string, port: GoInt)
    requires Range.Lawful(n) && PlainWords(n, h) && ListenProtocol(listen).Some? && DialProtocol(dial).Some?
    ensures var l := ListenText(n, h.sourceRange, listen + ":", port); IsWord(l) && l != "-T" && l != "-t"
    ensures IsWord(DialText(dial + ":", h.targetAddress, port))
  {
    KindsArePlain(listen, dial);
    WordsJoin(listen, ":");
    ListenIsWord(n, h.sourceRange, listen + ":", port);
    DialIsRead(dial, h.targetAddress, port);
  }

  lemma UdpCommandText(n: Range.Netip, h: HelperConfig, k: ProtoPort)
    requires k.protocol == "udp"
    ensures Command(n, h, k)
         == "socat " + "-T" + " " + Itoa(UdpSeconds(h)) + " " + ListenText(n, h.sourceRange, "UDP-LISTEN" + ":", k.port)
            + " " + DialText("UDP" + ":", h.targetAddress, k.port) + " & "
  {
    assert "socat -T " == "socat " + "-T" + " ";
    assert "UDP-LISTEN:" == "UDP-LISTEN" + ":" && "UDP:" == "UDP" + ":";
  }

  lemma TcpCommandIsRead(n: Range.Netip, h: HelperConfig, k: ProtoPort, t: string, ls: seq<Listener>)
    requires Range.Lawful(n) && PlainWords(n, h) && -INT_MAX - 1 <= k.port <= INT_MAX && k.protocol != "udp"
    requires ReadCommands(Fields(t)) == Some(ls)
    ensures ReadCommands(Fields(Command(n, h, k) + t)) == Some([Expected(n, h, k)] + ls)
  {
    var before := if h.halfClose.Some? then "socat " + "-t" + " " + h.halfClose.value else "socat";
    var flag := if h.halfClose.Some? then Some(("-t", h.halfClose.value)) else None;
    var listen := ListenText(n, h.sourceRange, "TCP-LISTEN" + ":", k.port);
    var dial := DialText("TCP" + ":", h.targetAddress, k.port);
    SocatWord();
    if h.halfClose.Some? {
      FlagWords("-t", h.halfClose.value);
    }
    CommandIsRead(n, h.sourceRange, flag, "TCP-LISTEN", "TCP", h.targetAddress, k.port);
    AddressesAreWords(n, h, "TCP-LISTEN", "TCP", k.port);
    OneCommand(before, flag, listen, dial, t, Expected(n, h, k), ls);
    TcpCommandText(n, h, k);
  }

  lemma TcpCommandText(n: Range.Netip, h: HelperConfig, k: ProtoPort)
    requires k.protocol != "udp"
    ensures Command(n, h, k)
         == (if h.halfClose.Some? then "socat " + "-t" + " " + h.halfClose.value else "socat")
            + " " + ListenText(n, h.sourceRange, "TCP-LISTEN" + ":", k.port)
            + " " + DialText("TCP" + ":", h.targetAddress, k.port) + " & "
  {
    assert "TCP-LISTEN:" == "TCP-LISTEN" + ":" && "TCP:" == "TCP" + ":";
    if h.halfClose.Some? {
      assert "socat " + ("-t " + h.halfClose.value + " ") == "socat " + "-t" + " " + h.halfClose.value + " ";
    } else {
      assert "socat " + "" == "socat" + " ";
    }
  }

  // ---------------------------------------------------------------------- the script

  predicate PlainKeys(keys: seq<ProtoPort>) {
    forall i :: 0 <= i < |keys| ==> -INT_MAX - 1 <= keys[i].port <= INT_MAX
  }

  ghost function ExpectedAll(n: Range.Netip, h: HelperConfig, keys: seq<ProtoPort>): (ls: seq<Listener>)
    requires PlainKeys(keys)
    ensures |ls| == |keys| && forall i :: 0 <= i < |keys| ==> ls[i] == Expected(n, h, keys[i])
  {
    if keys == [] then [] else ExpectedAll(n, h, keys[..|keys| - 1]) + [Expected(n, h, keys[|keys| - 1])]
  }

  lemma CommandBefore(n: Range.Netip, h: HelperConfig, k: ProtoPort, t: string, ls: seq<Listener>)
    requires Range.Lawful(n) && PlainWords(n, h) && -INT_MAX - 1 <= k.port <= INT_MAX
    requires ReadCommands(Fields(t)) == Some(ls)
    ensures ReadCommands(Fields(Command(n, h, k) + t)) == Some([Expected(n, h, k)] + ls)
  {
    if k.protocol == "udp" {
      UdpCommandIsRead(n, h, k, t, ls);
    } else {
      TcpCommandIsRead(n, h, k, t, ls);
    }
  }

  lemma {:induction false} CommandsAreRead(n: Range.Netip, h: HelperConfig, keys: seq<ProtoPort>, t: string,
                                           ls: seq<Listener>)
    requires Range.Lawful(n) && PlainWords(n, h) && PlainKeys(keys) && ReadCommands(Fields(t)) == Some(ls)
    ensures ReadCommands(Fields(Commands(n, h, keys) + t)) == Some(ExpectedAll(n, h, keys) + ls)
  {
    if keys == [] {
      assert "" + t == t && [] + ls == ls;
    } else {
      var init, k := keys[..|keys| - 1], keys[|keys| - 1];
      CommandBefore(n, h, k, t, ls);
      CommandsAreRead(n, h, init, Command(n, h, k) + t, [Expected(n, h, k)] + ls);
      Regroup(Commands(n, h, init), Command(n, h, k), t);
      Regroup(ExpectedAll(n, h, init), [Expected(n, h, k)], ls);
    }
  }

  function Commands(n: Range.Netip, h: HelperConfig, keys: seq<ProtoPort>): string {
    SocatCommands(keys, UdpSeconds(h), HalfCloseOption(h), Range.SocatRangeOptions(n, h.sourceRange), h.targetAddress)
  }

  /** What every listener of a script has in common: where it leads, for whom, and with which timeouts. */
  datatype Service = Service(host: string, range: Range.Prefix, udpSeconds: int, halfClose: Option<string>)

  /**
   The listener serves a container port: it takes clients of the range to that port of
   the host, over UDP when the protocol is udp and over TCP otherwise, with the UDP
   timeout, sixty seconds by default, or the TCP half-close timeout, if any.
   */
  predicate ServesKey(n: Range.Netip, s: Service, l: Listener, k: ProtoPort) {
    && l.protocol == l.dialProtocol == (if k.protocol == "udp" then "udp" else "tcp")
    && l.port == l.dialPort == k.port
    && l.host == s.host
    && |l.options| >= 2 && l.options[..2] == ["fork", "reuseaddr"]
    && ReadRange(n, l.options[2..]) == Some(s.range)
    && l.flag == (if k.protocol == "udp" then Some(("-T", Itoa(if s.udpSeconds <= 0 then 60 else s.udpSeconds)))
                  else if s.halfClose.Some? then Some(("-t", s.halfClose.value)) else None)
  }

  function ServiceOf(h: HelperConfig): Service {
    Service(h.targetAddress, h.sourceRange, h.udpSeconds, h.halfClose)
  }

  lemma ExpectedServes(n: Range.Netip, h: HelperConfig, k: ProtoPort)
    requires Range.Lawful(n) && PlainWords(n, h) && -INT_MAX - 1 <= k.port <= INT_MAX
    ensures ServesKey(n, ServiceOf(h), Expected(n, h, k), k)
  {
    OptionsAreRead(n, h.sourceRange);
  }

  lemma OptionsAreRead(n: Range.Netip, p: Range.Prefix)
    requires Range.Lawful(n) && (p.NoPrefix? || Range.ValidPrefix(p))
    ensures var options := ["fork", "reuseaddr"] + RangeWords(n, p);
            |options| >= 2 && options[..2] == ["fork", "reuseaddr"] && ReadRange(n, options[2..]) == Some(p)
  {
    RangeIsRead(n, p);
    assert (["fork", "reuseaddr"] + RangeWords(n, p))[2..] == RangeWords(n, p);
  }

  /** What the script says: one listener for each key, in order, that serves it. */
  lemma ScriptIsRead(n: Range.Netip, h: HelperConfig, keys: seq<ProtoPort>)
    requires Range.Lawful(n) && PlainWords(n, h) && PlainKeys(keys)
    ensures var r := ReadScript(Script(n, h, keys));
            && r.Some? && |r.value| == |keys|
            && forall i :: 0 <= i < |keys| ==> ServesKey(n, ServiceOf(h), r.value[i], keys[i])
  {
    FieldsWord("wait", "");
    CommandsAreRead(n, h, keys, "wait", []);
    ScriptBody(n, h, keys);
    assert ExpectedAll(n, h, keys) + [] == ExpectedAll(n, h, keys);
    forall i | 0 <= i < |keys|
      ensures ServesKey(n, ServiceOf(h), ExpectedAll(n, h, keys)[i], keys[i])
    {
      ExpectedServes(n, h, keys[i]);
    }
  }

  lemma ScriptBody(n: Range.Netip, h: HelperConfig, keys: seq<ProtoPort>)
    ensures ReadScript(Script(n, h, keys)) == ReadCommands(Fields(Commands(n, h, keys) + "wait"))
  {
    var body := Commands(n, h, keys) + "wait";
    TrapWords(body);
    Regroup("trap 'kill 0' EXIT; ", Commands(n, h, keys), "wait");
    var start := ["trap", "'kill", "0'", "EXIT;"];
    assert (start + Fields(body))[..4] == start && (start + Fields(body))[4..] == Fields(body);
  }

  lemma TrapWords(t: string)
    ensures Fields("trap 'kill 0' EXIT; " + t) == ["trap", "'kill", "0'", "EXIT;"] + Fields(t)
  {
    TrapText();
    FourWords("trap", "'kill", "0'", "EXIT;");
    FieldsConcat("trap" + " " + "'kill" + " " + "0'" + " " + "EXIT;", t);
  }

  lemma TrapText()
    ensures "trap 'kill 0' EXIT; " == "trap" + " " + "'kill" + " " + "0'" + " " + "EXIT;" + " "
    ensures IsWord("trap") && IsWord("'kill") && IsWord("0'") && IsWord("EXIT;")
  {
  }

  lemma FourWords(a: string, b: string, c: string, d: string)
    requires IsWord(a) && IsWord(b) && IsWord(c) && IsWord(d)
    ensures Fields(a + " " + b + " " + c + " " + d) == [a, b, c, d]
  {
    FieldsWord(a, "");
    WordAfter(a, b);
    WordAfter(a + " " + b, c);
    WordAfter(a + " " + b + " " + c, d);
  }

  // ----------------------------------------------------------------------- the pairs

  /** The listener serves the container port of a pair. */
  predicate ServesPair(n: Range.Netip, s: Service, l: Listener, p: PortPair) {
    ServesKey(n, s, l, ProtoPort(p.remotePort, p.protocol))
  }

  /** The script serves these pairs and only these, at this host, for clients of this range, with these timeouts. */
  ghost predicate ScriptServes(n: Range.Netip, script: string, s: Service, pairs: seq<PortPair>) {
    var r := ReadScript(script);
    && r.Some?
    && (forall p :: p in pairs ==> exists l :: l in r.value && ServesPair(n, s, l, p))
    && (forall l :: l in r.value ==> exists p :: p in pairs && ServesPair(n, s, l, p))
  }

  /** TCP listeners come before UDP ones, and then lower ports before higher ones. */
  predicate ListensBefore(a: Listener, b: Listener) {
    (a.protocol == "tcp" && b.protocol == "udp") || (a.protocol == b.protocol && a.port < b.port)
  }

  /** The script of a helper serves every pair, and has no listener but for a pair. */
  lemma ScriptServesPairs(n: Range.Netip, h: HelperConfig)
    requires Range.Lawful(n) && PlainWords(n, h)
    ensures ScriptServes(n, Script(n, h, SocatKeys(h.pairs)), ServiceOf(h), h.pairs)
  {
    KeysArePlain(h.pairs);
    ScriptIsRead(n, h, SocatKeys(h.pairs));
    ListenersServe(n, ServiceOf(h), ReadScript(Script(n, h, SocatKeys(h.pairs))).value, h.pairs);
  }

  /** It lists its listeners in order, each container port and protocol once. */
  lemma ScriptIsInOrder(n: Range.Netip, h: HelperConfig)
    requires Range.Lawful(n) && PlainWords(n, h) && forall p :: p in h.pairs ==> SupportedProtocol(p.protocol)
    ensures var r := ReadScript(Script(n, h, SocatKeys(h.pairs)));
            r.Some? && forall i, j :: 0 <= i < j < |r.value| ==> ListensBefore(r.value[i], r.value[j])
  {
    KeysArePlain(h.pairs);
    ScriptIsRead(n, h, SocatKeys(h.pairs));
    ListenersInOrder(n, ServiceOf(h), ReadScript(Script(n, h, SocatKeys(h.pairs))).value, h.pairs);
  }

  lemma ListenersServe(n: Range.Netip, s: Service, ls: seq<Listener>, pairs: seq<PortPair>)
    requires |ls| == |SocatKeys(pairs)|
    requires forall i :: 0 <= i < |ls| ==> ServesKey(n, s, ls[i], SocatKeys(pairs)[i])
    ensures forall p :: p in pairs ==> exists l :: l in ls && ServesPair(n, s, l, p)
    ensures forall l :: l in ls ==> exists p :: p in pairs && ServesPair(n, s, l, p)
  {
    forall p | p in pairs
      ensures exists l :: l in ls && ServesPair(n, s, l, p)
    {
      var i := PairHasKey(pairs, p);
      assert ls[i] in ls && ServesPair(n, s, ls[i], p);
    }
    forall l | l in ls
      ensures exists p :: p in pairs && ServesPair(n, s, l, p)
    {
      var i :| 0 <= i < |ls| && ls[i] == l;
      var p := KeyHasPair(pairs, i);
      assert ServesPair(n, s, ls[i], p);
    }
  }

  lemma ListenersInOrder(n: Range.Netip, s: Service, ls: seq<Listener>, pairs: seq<PortPair>)
    requires |ls| == |SocatKeys(pairs)|
    requires forall i :: 0 <= i < |ls| ==> ServesKey(n, s, ls[i], SocatKeys(pairs)[i])
    requires forall p :: p in pairs ==> SupportedProtocol(p.protocol)
    ensures forall i, j :: 0 <= i < j < |ls| ==> ListensBefore(ls[i], ls[j])
  {
    forall i, j | 0 <= i < j < |ls|
      ensures ListensBefore(ls[i], ls[j])
    {
      KeysInOrder(pairs, i, j);
    }
  }

  lemma PairHasKey(pairs: seq<PortPair>, p: PortPair) returns (i: nat)
    requires p in pairs
    ensures i < |SocatKeys(pairs)| && SocatKeys(pairs)[i].port == p.remotePort
    ensures SocatKeys(pairs)[i].protocol == "udp" <==> p.protocol == "udp"
  {
    SocatKeysMeaning(pairs, SocatKey(p));
    i :| i < |SocatKeys(pairs)| && SocatKeys(pairs)[i] == SocatKey(p);
  }

  lemma KeyHasPair(pairs: seq<PortPair>, i: nat) returns (p: PortPair)
    requires i < |SocatKeys(pairs)|
    ensures p in pairs && SocatKeys(pairs)[i].port == p.remotePort
    ensures SocatKeys(pairs)[i].protocol == "udp" <==> p.protocol == "udp"
    ensures SupportedProtocol(p.protocol) ==> SocatKeys(pairs)[i].protocol in {"tcp", "udp"}
  {
    var k := SocatKeys(pairs)[i];
    SocatKeysMeaning(pairs, k);
    p :| p in pairs && OnPort(p, k);
  }

  lemma KeysInOrder(pairs: seq<PortPair>, i: nat, j: nat)
    requires i < j < |SocatKeys(pairs)| && forall p :: p in pairs ==> SupportedProtocol(p.protocol)
    ensures var a, b := SocatKeys(pairs)[i], SocatKeys(pairs)[j];
            || (a.protocol == "tcp" && b.protocol == "udp")
            || (a.protocol == b.protocol && a.port < b.port)
  {
    var p := KeyHasPair(pairs, i);
    var q := KeyHasPair(pairs, j);
    SocatKeysMeaning(pairs, SocatKeys(pairs)[i]);
    ProtoPortsInOrder(SocatKeys(pairs)[i], SocatKeys(pairs)[j]);
  }

  lemma KeysArePlain(pairs: seq<PortPair>)
    ensures PlainKeys(SocatKeys(pairs))
  {
    var keys := SocatKeys(pairs);
    forall i | 0 <= i < |keys|
      ensures -INT_MAX - 1 <= keys[i].port <= INT_MAX
    {
      SocatKeysMeaning(pairs, keys[i]);
    }
  }
}
