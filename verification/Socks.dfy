/**
 The SOCKS5 handshake (RFC 1928 sections 3, 4 and 6, RFC 1929 section 2): what each side waits for and
 what it does with it, and what the two of them do together under any interleaving.
 */
module SocksHandshake {
  import opened Bytes

  type Data = seq<Byte>

  const VER5: Byte := 5
  const AUTH_UP: Byte := 2
  const AUTH_NONE: Byte := 0
  const NO_METHOD: Byte := 255
  const CMD_CONNECT: Byte := 1
  const CMD_UDP: Byte := 3
  const ATYP_IPV4: Byte := 1
  const ATYP_HOST: Byte := 3
  const ATYP_IPV6: Byte := 4
  const REP_OK: Byte := 0

  datatype Creds = Creds(user: Data, pass: Data)
  datatype Addr = IPv4(ip: Data) | IPv6(ip: Data) | Name(name: Data)
  datatype Target = Target(addr: Addr, port: nat)

  /** The pairs the server accepts; nothing at all when it asks for no authentication. */
  type Auth = Option<Creds -> bool>

  function Reply(code: Byte): Data {
    [VER5, code, 0, ATYP_IPV4, 0, 0, 0, 0, 0, 0]
  }

  // ---- The server ----

  /** Where the server stands: the read it is blocked in and what it remembers, or how it ended. */
  datatype Server =
    | Greeting
    | Methods(n: nat)
    | AuthHead
    | User(n: nat)
    | PassLength(user: Data)
    | Pass(user: Data, n: nat)
    | Request(who: Option<Creds>)
    | Ip(who: Option<Creds>, cmd: Byte, atyp: Byte)
    | NameLength(who: Option<Creds>, cmd: Byte)
    | HostName(who: Option<Creds>, cmd: Byte, n: nat)
    | Port(who: Option<Creds>, cmd: Byte, addr: Addr)
    | Relay(who: Option<Creds>, target: Target)
    | UdpRelay(who: Option<Creds>)
    | Closed

  predicate ServerDone(s: Server) {
    s.Relay? || s.UdpRelay? || s.Closed?
  }

  /** How many bytes the read takes. */
  function ServerNeed(s: Server): nat {
    match s
    case Greeting => 2
    case Methods(n) => n
    case AuthHead => 2
    case User(n) => n
    case PassLength(_) => 1
    case Pass(_, n) => n
    case Request(_) => 4
    case Ip(_, _, atyp) => if atyp == ATYP_IPV4 then 4 else 16
    case NameLength(_, _) => 1
    case HostName(_, _, n) => n
    case Port(_, _, _) => 2
    case _ => 0
  }

  /** What the server does with the bytes read, and what it writes. `reachable` says whether dialling
      the requested target succeeds. */
  function ServerNext(auth: Auth, reachable: bool, s: Server, b: Data): (r: (Server, Data))
    requires !ServerDone(s) && |b| == ServerNeed(s)
  {
    match s
    case Greeting => if b[0] != VER5 then (Closed, []) else (Methods(b[1]), [])
    case Methods(_) =>
      var chosen := if auth.None? then AUTH_NONE else AUTH_UP;
      if chosen !in b then (Closed, [VER5, NO_METHOD])
      else if auth.None? then (Request(None), [VER5, AUTH_NONE])
      else (AuthHead, [VER5, AUTH_UP])
    case AuthHead => if b[0] != 1 then (Closed, [1, 1]) else (User(b[1]), [])
    case User(_) => (PassLength(b), [])
    case PassLength(user) => (Pass(user, b[0]), [])
    case Pass(user, _) =>
      if auth.Some? && auth.value(Creds(user, b)) then (Request(Some(Creds(user, b))), [1, 0])
      else (Closed, [1, 1])
    case Request(who) =>
      if b[0] != VER5 then (Closed, Reply(7))
      else if b[3] == ATYP_IPV4 || b[3] == ATYP_IPV6 then (Ip(who, b[1], b[3]), [])
      else if b[3] == ATYP_HOST then (NameLength(who, b[1]), [])
      else (Closed, Reply(8))
    case Ip(who, cmd, atyp) => (Port(who, cmd, if atyp == ATYP_IPV4 then IPv4(b) else IPv6(b)), [])
    case NameLength(who, cmd) => (HostName(who, cmd, b[0]), [])
    case HostName(who, cmd, _) => (Port(who, cmd, Name(b)), [])
    case Port(who, cmd, addr) =>
      if cmd == CMD_CONNECT then
        if reachable then (Relay(who, Target(addr, FromU16(b[0], b[1]))), Reply(REP_OK)) else (Closed, Reply(5))
      else if cmd == CMD_UDP then (UdpRelay(who), [])
      else (Closed, Reply(7))
  }

  /** What the server writes when the stream ends inside a read. */
  function CutOffReply(s: Server): Data {
    match s
    case AuthHead => [1, 1]
    case User(_) => [1, 1]
    case PassLength(_) => [1, 1]
    case Pass(_, _) => [1, 1]
    case Request(_) => Reply(7)
    case Ip(_, _, _) => Reply(8)
    case NameLength(_, _) => Reply(8)
    case HostName(_, _, _) => Reply(8)
    case Port(_, _, _) => Reply(1)
    case _ => []
  }

  function ServerRank(s: Server): nat {
    match s
    case Greeting => 10
    case Methods(_) => 9
    case AuthHead => 8
    case User(_) => 7
    case PassLength(_) => 6
    case Pass(_, _) => 5
    case Request(_) => 4
    case NameLength(_, _) => 3
    case Ip(_, _, _) => 2
    case HostName(_, _, _) => 2
    case Port(_, _, _) => 1
    case _ => 0
  }

  lemma ServerAdvances(auth: Auth, reachable: bool, s: Server, b: Data)
    requires !ServerDone(s) && |b| == ServerNeed(s)
    ensures ServerRank(ServerNext(auth, reachable, s, b).0) < ServerRank(s)
  {
  }

  // ---- The client ----

  datatype Ask = Ask(creds: Creds, host: Data, port: nat)

  datatype Client = MethodReply | AuthReply | ReplyHead | BoundLength | Bound(n: nat) | Connected | Failed

  predicate ClientDone(c: Client) {
    c.Connected? || c.Failed?
  }

  function ClientNeed(c: Client): nat {
    match c
    case MethodReply => 2
    case AuthReply => 2
    case ReplyHead => 4
    case BoundLength => 1
    case Bound(n) => n
    case _ => 0
  }

  predicate NoAuth(a: Ask) {
    a.creds.user == [] && a.creds.pass == []
  }

  function Offered(a: Ask): Byte {
    if NoAuth(a) then AUTH_NONE else AUTH_UP
  }

  function Offer(a: Ask): Data {
    [VER5, 1, Offered(a)]
  }

  /** A length byte as Go's conversion makes it: the low eight bits. */
  function Low(n: nat): Byte {
    n % 256
  }

  function AuthMessage(a: Ask): Data {
    [1, Low(|a.creds.user|)] + a.creds.user + [Low(|a.creds.pass|)] + a.creds.pass
  }

  function RequestMessage(a: Ask): Data {
    [VER5, CMD_CONNECT, 0, ATYP_HOST, Low(|a.host|)] + a.host + U16(a.port)
  }

  function ClientNext(a: Ask, c: Client, b: Data): (Client, Data)
    requires !ClientDone(c) && |b| == ClientNeed(c)
  {
    match c
    case MethodReply =>
      if b[0] != VER5 || b[1] != Offered(a) then (Failed, [])
      else if NoAuth(a) then (ReplyHead, RequestMessage(a))
      else (AuthReply, AuthMessage(a))
    case AuthReply => if b[1] != 0 then (Failed, []) else (ReplyHead, RequestMessage(a))
    case ReplyHead =>
      if b[1] != REP_OK then (Failed, [])
      else if b[3] == ATYP_IPV4 then (Bound(6), [])
      else if b[3] == ATYP_IPV6 then (Bound(18), [])
      else if b[3] == ATYP_HOST then (BoundLength, [])
      else (Failed, [])
    case BoundLength =>
      var length: int := b[0];
      (Bound(length + 2), [])
    case Bound(_) => (Connected, [])
  }

  function ClientRank(c: Client): nat {
    match c
    case MethodReply => 5
    case AuthReply => 4
    case ReplyHead => 3
    case BoundLength => 2
    case Bound(_) => 1
    case _ => 0
  }

  lemma ClientAdvances(a: Ask, c: Client, b: Data)
    requires !ClientDone(c) && |b| == ClientNeed(c)
    ensures ClientRank(ClientNext(a, c, b).0) < ClientRank(c)
  {
  }

  // ---- The two of them ----

  /** Both ends, the bytes in flight each way, and what was sent after the handshake. */
  datatype Pair = Pair(client: Client, server: Server, up: Data, down: Data, sent: Data, relayed: Data)

  /** What an exchange is about: the request, the server's users and whether the target can be dialled. */
  datatype World = World(ask: Ask, auth: Auth, reachable: bool)

  datatype Step =
    | ClientReads
    | ServerReads
    | ClientCutOff               // the server is gone and a read of the client cannot be filled
    | ServerCutOff               // the client is gone and a read of the server cannot be filled
    | ClientSends(bytes: Data)   // after the handshake
    | ServerRelays(bytes: Data)

  function Start(w: World): Pair {
    Pair(MethodReply, Greeting, Offer(w.ask), [], [], [])
  }

  predicate Enabled(w: World, p: Pair, step: Step) {
    match step
    case ClientReads => !ClientDone(p.client) && |p.down| >= ClientNeed(p.client)
    case ServerReads => !ServerDone(p.server) && |p.up| >= ServerNeed(p.server)
    case ClientCutOff => !ClientDone(p.client) && |p.down| < ClientNeed(p.client) && p.server.Closed?
    case ServerCutOff => !ServerDone(p.server) && |p.up| < ServerNeed(p.server) && p.client.Failed?
    case ClientSends(_) => p.client.Connected?
    case ServerRelays(_) => p.server.Relay?
  }

  function Next(w: World, p: Pair, step: Step): Pair
    requires Enabled(w, p, step)
  {
    match step
    case ClientReads =>
      var n := ClientNeed(p.client);
      var (c, out) := ClientNext(w.ask, p.client, p.down[..n]);
      p.(client := c, up := p.up + out, down := p.down[n..])
    case ServerReads =>
      var n := ServerNeed(p.server);
      var (s, out) := ServerNext(w.auth, w.reachable, p.server, p.up[..n]);
      p.(server := s, up := p.up[n..], down := p.down + out)
    case ClientCutOff => p.(client := Failed)
    case ServerCutOff => p.(server := Closed, down := p.down + CutOffReply(p.server))
    case ClientSends(bytes) => p.(up := p.up + bytes, sent := p.sent + bytes)
    case ServerRelays(bytes) => p.(down := p.down + bytes, relayed := p.relayed + bytes)
  }

  predicate Run(w: World, pairs: seq<Pair>, steps: seq<Step>) {
    && |pairs| == |steps| + 1
    && pairs[0] == Start(w)
    && forall i | 0 <= i < |steps| :: Enabled(w, pairs[i], steps[i]) && pairs[i + 1] == Next(w, pairs[i], steps[i])
  }

  /** The lengths the protocol can carry. */
  predicate Fits(a: Ask) {
    |a.creds.user| <= 255 && |a.creds.pass| <= 255 && |a.host| <= 255 && a.port <= 65535
  }

  function Identity(a: Ask): Option<Creds> {
    if NoAuth(a) then None else Some(a.creds)
  }

  function Wanted(a: Ask): Target {
    Target(Name(a.host), a.port)
  }

  /** Both sides want a password or neither does, and the server accepts this one. */
  predicate Welcome(w: World) {
    if w.auth.None? then NoAuth(w.ask) else !NoAuth(w.ask) && w.auth.value(w.ask.creds)
  }

  /** What the client has sent of its current message and the server not yet read. */
  function Unread(a: Ask, s: Server): Data {
    match s
    case Greeting => Offer(a)
    case Methods(_) => [Offered(a)]
    case AuthHead => AuthMessage(a)
    case User(_) => a.creds.user + [Low(|a.creds.pass|)] + a.creds.pass
    case PassLength(_) => [Low(|a.creds.pass|)] + a.creds.pass
    case Pass(_, _) => a.creds.pass
    case Request(_) => RequestMessage(a)
    case NameLength(_, _) => [Low(|a.host|)] + a.host + U16(a.port)
    case HostName(_, _, _) => a.host + U16(a.port)
    case Port(_, _, _) => U16(a.port)
    case _ => []
  }

  /** The server is reading the greeting, the password or the request, and remembers what it was told. */
  predicate ReadsGreeting(s: Server) {
    s == Greeting || s == Methods(1)
  }

  predicate ReadsPassword(a: Ask, s: Server) {
    || s == AuthHead || s == User(|a.creds.user|) || s == PassLength(a.creds.user)
    || s == Pass(a.creds.user, |a.creds.pass|)
  }

  predicate ReadsRequest(a: Ask, s: Server) {
    var who := Identity(a);
    || s == Request(who) || s == NameLength(who, CMD_CONNECT) || s == HostName(who, CMD_CONNECT, |a.host|)
    || s == Port(who, CMD_CONNECT, Name(a.host))
  }

  predicate Agreed(w: World, p: Pair) {
    p.server == Relay(Identity(w.ask), Wanted(w.ask)) && Welcome(w) && w.reachable
  }

  predicate Inv(w: World, p: Pair) {
    && (p.relayed != [] ==> p.server.Relay?)
    && (p.sent != [] ==> p.client.Connected?)
    && match p.client
       case MethodReply =>
         || (ReadsGreeting(p.server) && p.up == Unread(w.ask, p.server) && p.down == [])
         || (p.up == [] && p.down == [VER5, Offered(w.ask)]
             && p.server == (if NoAuth(w.ask) then Request(None) else AuthHead) && w.auth.None? == NoAuth(w.ask))
         || (p.server == Closed && p.down == [VER5, NO_METHOD] && !Welcome(w))
       case AuthReply =>
         && !NoAuth(w.ask) && w.auth.Some?
         && (|| (ReadsPassword(w.ask, p.server) && p.up == Unread(w.ask, p.server) && p.down == [])
             || (p.server == Request(Some(w.ask.creds)) && p.up == [] && p.down == [1, 0] && Welcome(w))
             || (p.server == Closed && p.down == [1, 1] && !Welcome(w)))
       case ReplyHead =>
         && Welcome(w)
         && (|| (ReadsRequest(w.ask, p.server) && p.up == Unread(w.ask, p.server) && p.down == [])
             || (Agreed(w, p) && p.up == [] && p.down == Reply(REP_OK) + p.relayed)
             || (p.server == Closed && p.down == Reply(5) && !w.reachable))
       case BoundLength => false
       case Bound(n) => Agreed(w, p) && n == 6 && p.up == [] && p.down == Reply(REP_OK)[4..] + p.relayed
       case Connected => Agreed(w, p) && p.up == p.sent && p.down == p.relayed
       case Failed => p.server == Closed && !(Welcome(w) && w.reachable)
  }

  lemma StartIsInv(w: World)
    ensures Inv(w, Start(w))
  {
  }

  lemma Reads(stream: Data, block: Data, rest: Data)
    requires stream == block + rest
    ensures stream[..|block|] == block && stream[|block|..] == rest
  {
  }

  /** The server at one point of the greeting: what it reads, and what that leaves. */
  lemma GreetingStep(w: World, s: Server)
    requires ReadsGreeting(s)
    ensures |Unread(w.ask, s)| >= ServerNeed(s)
    ensures var n := ServerNeed(s);
            var up := Unread(w.ask, s);
            var (next, out) := ServerNext(w.auth, w.reachable, s, up[..n]);
            if s == Greeting then next == Methods(1) && out == [] && up[n..] == Unread(w.ask, next)
            else
              && up[n..] == []
              && if w.auth.None? == NoAuth(w.ask) then
                   next == (if NoAuth(w.ask) then Request(None) else AuthHead) && out == [VER5, Offered(w.ask)]
                 else next == Closed && out == [VER5, NO_METHOD]
  {
    if s == Greeting {
      Reads(Unread(w.ask, s), [VER5, 1], [Offered(w.ask)]);
    } else {
      Reads(Unread(w.ask, s), [Offered(w.ask)], []);
    }
  }

  lemma PasswordStep(w: World, s: Server)
    requires Fits(w.ask) && !NoAuth(w.ask) && w.auth.Some? && ReadsPassword(w.ask, s)
    ensures |Unread(w.ask, s)| >= ServerNeed(s)
    ensures var n := ServerNeed(s);
            var up := Unread(w.ask, s);
            var (next, out) := ServerNext(w.auth, w.reachable, s, up[..n]);
            if s.Pass? then
              && up[n..] == []
              && (next, out) == if Welcome(w) then (Request(Some(w.ask.creds)), [1, 0]) else (Closed, [1, 1])
            else ReadsPassword(w.ask, next) && out == [] && up[n..] == Unread(w.ask, next)
  {
    var creds := w.ask.creds;
    var up := Unread(w.ask, s);
    match s
    case AuthHead =>
      assert up == [1, Low(|creds.user|)] + (creds.user + [Low(|creds.pass|)] + creds.pass);
      Reads(up, [1, Low(|creds.user|)], creds.user + [Low(|creds.pass|)] + creds.pass);
    case User(_) =>
      assert up == creds.user + ([Low(|creds.pass|)] + creds.pass);
      Reads(up, creds.user, [Low(|creds.pass|)] + creds.pass);
    case PassLength(_) =>
      Reads(up, [Low(|creds.pass|)], creds.pass);
    case Pass(_, _) =>
      assert creds == Creds(creds.user, creds.pass);
      Reads(up, creds.pass, []);
  }

  /** What the rest of the request is after each read of it. */
  lemma RequestUnread(a: Ask)
    ensures Unread(a, Request(Identity(a))) ==
            [VER5, CMD_CONNECT, 0, ATYP_HOST] + Unread(a, NameLength(Identity(a), CMD_CONNECT))
    ensures Unread(a, NameLength(Identity(a), CMD_CONNECT)) ==
            [Low(|a.host|)] + Unread(a, HostName(Identity(a), CMD_CONNECT, |a.host|))
    ensures Unread(a, HostName(Identity(a), CMD_CONNECT, |a.host|)) ==
            a.host + Unread(a, Port(Identity(a), CMD_CONNECT, Name(a.host)))
  {
    hide U16;
  }

  lemma PortStep(w: World)
    requires Fits(w.ask)
    ensures var s := Port(Identity(w.ask), CMD_CONNECT, Name(w.ask.host));
            var up := Unread(w.ask, s);
            && |up| == ServerNeed(s)
            && ServerNext(w.auth, w.reachable, s, up) ==
               if w.reachable then (Relay(Identity(w.ask), Wanted(w.ask)), Reply(REP_OK)) else (Closed, Reply(5))
  {
    U16Value(w.ask.port);
  }

  lemma RequestStep(w: World, s: Server)
    requires Fits(w.ask) && ReadsRequest(w.ask, s)
    ensures |Unread(w.ask, s)| >= ServerNeed(s)
    ensures var n := ServerNeed(s);
            var up := Unread(w.ask, s);
            var (next, out) := ServerNext(w.auth, w.reachable, s, up[..n]);
            if s.Port? then
              && up[n..] == []
              && (next, out) == if w.reachable then (Relay(Identity(w.ask), Wanted(w.ask)), Reply(REP_OK))
                                else (Closed, Reply(5))
            else ReadsRequest(w.ask, next) && out == [] && up[n..] == Unread(w.ask, next)
  {
    var a, who := w.ask, Identity(w.ask);
    RequestUnread(a);
    PortStep(w);
    hide Unread, Identity;
    match s
    case Request(_) => Reads(Unread(a, s), [VER5, CMD_CONNECT, 0, ATYP_HOST], Unread(a, NameLength(who, CMD_CONNECT)));
    case NameLength(_, _) => Reads(Unread(a, s), [Low(|a.host|)], Unread(a, HostName(who, CMD_CONNECT, |a.host|)));
    case HostName(_, _, _) => Reads(Unread(a, s), a.host, Unread(a, Port(who, CMD_CONNECT, Name(a.host))));
    case Port(_, _, _) =>
      assert Unread(a, s) + [] == Unread(a, s);
      Reads(Unread(a, s), Unread(a, s), []);
  }

  lemma ServerReadKeeps(w: World, p: Pair)
    requires Fits(w.ask) && Inv(w, p) && Enabled(w, p, ServerReads)
    ensures Inv(w, Next(w, p, ServerReads))
  {
    match p.client
    case MethodReply =>
      if ReadsGreeting(p.server) {
        GreetingStep(w, p.server);
      }
    case AuthReply =>
      if ReadsPassword(w.ask, p.server) {
        PasswordStep(w, p.server);
      }
    case ReplyHead =>
      if ReadsRequest(w.ask, p.server) {
        RequestStep(w, p.server);
      }
    case _ =>
  }

  lemma MethodReplyRead(w: World, p: Pair)
    requires Inv(w, p) && p.client.MethodReply? && Enabled(w, p, ClientReads)
    ensures Inv(w, Next(w, p, ClientReads))
  {
    assert |p.down| == 2;
    Reads(p.down, p.down, []);
    if p.server.Closed? {
      assert p.down[1] == NO_METHOD;
    } else {
      assert p.up + RequestMessage(w.ask) == RequestMessage(w.ask);
      assert p.up + AuthMessage(w.ask) == AuthMessage(w.ask);
    }
  }

  lemma ClientReadKeeps(w: World, p: Pair)
    requires Fits(w.ask) && Inv(w, p) && Enabled(w, p, ClientReads)
    ensures Inv(w, Next(w, p, ClientReads))
  {
    match p.client
    case MethodReply => MethodReplyRead(w, p);
    case AuthReply =>
      Reads(p.down, p.down, []);
      assert p.server == Request(Some(w.ask.creds)) ==> p.up + RequestMessage(w.ask) == Unread(w.ask, p.server);
    case ReplyHead =>
      if p.server.Relay? {
        assert p.down == Reply(REP_OK)[..4] + (Reply(REP_OK)[4..] + p.relayed);
        Reads(p.down, Reply(REP_OK)[..4], Reply(REP_OK)[4..] + p.relayed);
      }
    case Bound(n) => Reads(p.down, Reply(REP_OK)[4..], p.relayed);
    case _ =>
  }

  lemma {:induction false} StepKeeps(w: World, p: Pair, step: Step)
    requires Fits(w.ask) && Inv(w, p) && Enabled(w, p, step)
    ensures Inv(w, Next(w, p, step))
  {
    match step
    case ClientReads => ClientReadKeeps(w, p);
    case ServerReads => ServerReadKeeps(w, p);
    case ClientCutOff =>
    case ServerCutOff =>
    case ClientSends(_) =>
    case ServerRelays(_) =>
  }

  lemma {:induction false} RunKeeps(w: World, pairs: seq<Pair>, steps: seq<Step>, i: nat)
    requires Fits(w.ask) && Run(w, pairs, steps) && i <= |steps|
    ensures Inv(w, pairs[i])
  {
    if i > 0 {
      RunKeeps(w, pairs, steps, i - 1);
      hide Inv, Next, Enabled, Fits;
      assert pairs[i - 1 + 1] == Next(w, pairs[i - 1], steps[i - 1]);
      StepKeeps(w, pairs[i - 1], steps[i - 1]);
    } else {
      StartIsInv(w);
    }
  }

  /** Nothing is left to do but carry traffic. */
  predicate Settled(w: World, p: Pair) {
    && !Enabled(w, p, ClientReads) && !Enabled(w, p, ServerReads)
    && !Enabled(w, p, ClientCutOff) && !Enabled(w, p, Step.ServerCutOff)
  }

  /** However the two are interleaved: a client that is through has a server that reached its success
      reply, for exactly the client's target and credentials, and neither end has taken or left a byte
      of the other's traffic; a client that failed has a server that closed. */
  lemma ConnectedMeansAgreed(w: World, pairs: seq<Pair>, steps: seq<Step>)
    requires Fits(w.ask) && Run(w, pairs, steps)
    ensures var p := pairs[|steps|];
            && (p.client.Connected? ==>
                  && p.server == Relay(Identity(w.ask), Wanted(w.ask))
                  && p.up == p.sent && p.down == p.relayed)
            && (p.client.Failed? ==> p.server.Closed?)
            && (p.server.Relay? ==> p.server == Relay(Identity(w.ask), Wanted(w.ask)))
  {
    RunKeeps(w, pairs, steps, |steps|);
  }

  /** Once settled the handshake has succeeded at both ends or at neither, and it has succeeded exactly
      when both sides want the same kind of authentication, the server accepts the credentials and the
      target can be dialled. */
  lemma SettledIff(w: World, pairs: seq<Pair>, steps: seq<Step>)
    requires Fits(w.ask) && Run(w, pairs, steps) && Settled(w, pairs[|steps|])
    ensures var p := pairs[|steps|];
            && (p.client.Connected? <==> p.server.Relay?)
            && (p.client.Connected? <==> Welcome(w) && w.reachable)
            && (p.client.Failed? <==> !p.client.Connected?)
  {
    var p := pairs[|steps|];
    RunKeeps(w, pairs, steps, |steps|);
    SettledPair(w, p);
  }

  lemma SettledPair(w: World, p: Pair)
    requires Fits(w.ask) && Inv(w, p) && Settled(w, p)
    ensures p.client.Connected? || p.client.Failed?
    ensures p.client.Connected? <==> p.server.Relay?
    ensures p.client.Connected? <==> Welcome(w) && w.reachable
  {
    match p.client
    case MethodReply =>
      if ReadsGreeting(p.server) {
        GreetingStep(w, p.server);
      }
    case AuthReply =>
      if ReadsPassword(w.ask, p.server) {
        PasswordStep(w, p.server);
      }
    case ReplyHead =>
      if ReadsRequest(w.ask, p.server) {
        RequestStep(w, p.server);
      }
    case _ =>
  }

  function HandshakeRank(p: Pair): nat {
    ClientRank(p.client) + ServerRank(p.server)
  }

  function Reading(steps: seq<Step>): nat {
    if steps == [] then 0
    else
      var last := steps[|steps| - 1];
      Reading(steps[..|steps| - 1]) + if last.ClientSends? || last.ServerRelays? then 0 else 1
  }

  /** And it always settles: a run takes at most fifteen steps that are not traffic. */
  lemma {:induction false} HandshakeEnds(w: World, pairs: seq<Pair>, steps: seq<Step>)
    requires Run(w, pairs, steps)
    ensures Reading(steps) + HandshakeRank(pairs[|steps|]) <= 15
  {
    if steps != [] {
      var n := |steps| - 1;
      assert Run(w, pairs[..n + 1], steps[..n]);
      HandshakeEnds(w, pairs[..n + 1], steps[..n]);
      assert pairs[n + 1] == Next(w, pairs[n], steps[n]);
      StepAdvances(w, pairs[n], steps[n]);
    }
  }

  lemma StepAdvances(w: World, p: Pair, step: Step)
    requires Enabled(w, p, step)
    ensures HandshakeRank(Next(w, p, step)) + (if step.ClientSends? || step.ServerRelays? then 0 else 1)
            <= HandshakeRank(p)
  {
    match step
    case ClientReads => ClientAdvances(w.ask, p.client, p.down[..ClientNeed(p.client)]);
    case ServerReads => ServerAdvances(w.auth, w.reachable, p.server, p.up[..ServerNeed(p.server)]);
    case _ =>
  }

  // ---- Fields that do not fit ----

  predicate CredsFit(who: Option<Creds>) {
    who.Some? ==> |who.value.user| <= 255 && |who.value.pass| <= 255
  }

  predicate AddrFits(addr: Addr) {
    addr.Name? ==> |addr.name| <= 255
  }

  /** Every length the server goes by was one byte, so what it remembers fits one. */
  predicate ServerFits(s: Server) {
    match s
    case Methods(n) => n <= 255
    case User(n) => n <= 255
    case PassLength(user) => |user| <= 255
    case Pass(user, n) => |user| <= 255 && n <= 255
    case Request(who) => CredsFit(who)
    case Ip(who, _, _) => CredsFit(who)
    case NameLength(who, _) => CredsFit(who)
    case HostName(who, _, n) => CredsFit(who) && n <= 255
    case Port(who, _, addr) => CredsFit(who) && AddrFits(addr)
    case Relay(who, target) => CredsFit(who) && AddrFits(target.addr) && target.port <= 65535
    case _ => true
  }

  lemma ServerStaysFit(auth: Auth, reachable: bool, s: Server, b: Data)
    requires !ServerDone(s) && |b| == ServerNeed(s) && ServerFits(s)
    ensures ServerFits(ServerNext(auth, reachable, s, b).0)
  {
  }

  lemma {:induction false} RunStaysFit(w: World, pairs: seq<Pair>, steps: seq<Step>, i: nat)
    requires Run(w, pairs, steps) && i <= |steps|
    ensures ServerFits(pairs[i].server)
  {
    if i > 0 {
      RunStaysFit(w, pairs, steps, i - 1);
      var p := pairs[i - 1];
      assert Enabled(w, p, steps[i - 1]) && pairs[i - 1 + 1] == Next(w, p, steps[i - 1]);
      if steps[i - 1].ServerReads? {
        ServerStaysFit(w.auth, w.reachable, p.server, p.up[..ServerNeed(p.server)]);
      }
      hide Run, ServerNext, ServerFits, ClientNext;
    }
  }

  /** A settled exchange between ends that want the same authentication, with credentials that are accepted
      and a target that can be dialled, agrees if and only if every field fits its length on the wire. */
  lemma AgreedIffFits(w: World, pairs: seq<Pair>, steps: seq<Step>)
    requires Run(w, pairs, steps) && Settled(w, pairs[|steps|]) && Welcome(w) && w.reachable
    ensures var p := pairs[|steps|];
            Fits(w.ask) <==>
              && p.client.Connected? && p.server == Relay(Identity(w.ask), Wanted(w.ask))
              && p.up == p.sent && p.down == p.relayed
  {
    RunStaysFit(w, pairs, steps, |steps|);
    if Fits(w.ask) {
      SettledIff(w, pairs, steps);
      ConnectedMeansAgreed(w, pairs, steps);
    }
  }
}

/** The code of the two ends, each against the bytes its peer will ever send. */
module SocksEnds {
  import opened Bytes
  import opened Framing
  import opened SocksHandshake

  datatype Outcome<T> = Outcome(end: T, rest: Data, written: Data)

  /** The server left alone with a stream: how it ends, what it leaves unread and all it has written. */
  function Serve(auth: Auth, reachable: bool, s: Server, input: Data, written: Data): Outcome<Server>
    decreases ServerRank(s)
  {
    if ServerDone(s) then Outcome(s, input, written)
    else if |input| < ServerNeed(s) then Outcome(Closed, [], written + CutOffReply(s))
    else
      var n := ServerNeed(s);
      ServerAdvances(auth, reachable, s, input[..n]);
      var (next, out) := ServerNext(auth, reachable, s, input[..n]);
      Serve(auth, reachable, next, input[n..], written + out)
  }

  function Consult(a: Ask, c: Client, input: Data, written: Data): Outcome<Client>
    decreases ClientRank(c)
  {
    if ClientDone(c) then Outcome(c, input, written)
    else if |input| < ClientNeed(c) then Outcome(Failed, [], written)
    else
      var n := ClientNeed(c);
      ClientAdvances(a, c, input[..n]);
      var (next, out) := ClientNext(a, c, input[..n]);
      Consult(a, next, input[n..], written + out)
  }

  lemma ServeOne(auth: Auth, reachable: bool, s: Server, b: Data, rest: Data, written: Data)
    requires !ServerDone(s) && |b| == ServerNeed(s)
    ensures var (next, out) := ServerNext(auth, reachable, s, b);
            Serve(auth, reachable, s, b + rest, written)
              == Serve(auth, reachable, next, rest, if out == [] then written else written + out)
  {
    Reads(b + rest, b, rest);
    assert written + [] == written;
  }

  /** A host of 256 bytes or more, which the client does not refuse: its length byte wraps, and the server
      goes by the beginning of the host, takes the next two bytes for the port and leaves the rest, port and
      all, to be sent to that target as traffic. */
  lemma LongHostIsMisread(auth: Auth, a: Ask, who: Option<Creds>, written: Data)
    requires |a.host| >= 256
    ensures var m := |a.host| % 256;
            Serve(auth, true, Request(who), RequestMessage(a), written) ==
              Outcome(Relay(who, Target(Name(a.host[..m]), FromU16(a.host[m], a.host[m + 1]))),
                      a.host[m + 2..] + U16(a.port), written + Reply(REP_OK))
  {
    hide Serve;
    var m := |a.host| % 256;
    var head := [VER5, CMD_CONNECT, 0, ATYP_HOST];
    var rest := a.host[m + 2..] + U16(a.port);
    var port := a.host[m..m + 2];
    var target := Target(Name(a.host[..m]), FromU16(a.host[m], a.host[m + 1]));
    assert ServerNext(auth, true, Request(who), head) == (NameLength(who, CMD_CONNECT), []);
    assert ServerNext(auth, true, NameLength(who, CMD_CONNECT), [Low(|a.host|)]) == (HostName(who, CMD_CONNECT, m), []);
    assert ServerNext(auth, true, HostName(who, CMD_CONNECT, m), a.host[..m]) == (Port(who, CMD_CONNECT, target.addr), []);
    assert ServerNext(auth, true, Port(who, CMD_CONNECT, target.addr), port) == (Relay(who, target), Reply(REP_OK));
    hide ServerNext;
    assert RequestMessage(a) == head + ([Low(|a.host|)] + (a.host[..m] + (port + rest)));
    ServeOne(auth, true, Request(who), head, [Low(|a.host|)] + (a.host[..m] + (port + rest)), written);
    ServeOne(auth, true, NameLength(who, CMD_CONNECT), [Low(|a.host|)], a.host[..m] + (port + rest), written);
    ServeOne(auth, true, HostName(who, CMD_CONNECT, m), a.host[..m], port + rest, written);
    ServeOne(auth, true, Port(who, CMD_CONNECT, target.addr), port, rest, written);
    ServeDone(auth, true, Relay(who, target), rest, written + Reply(REP_OK));
  }

  lemma ServeCutOff(auth: Auth, reachable: bool, s: Server, input: Data, written: Data)
    requires !ServerDone(s) && |input| < ServerNeed(s)
    ensures Serve(auth, reachable, s, input, written) == Outcome(Closed, [], written + CutOffReply(s))
  {
  }

  lemma ServeDone(auth: Auth, reachable: bool, s: Server, input: Data, written: Data)
    requires ServerDone(s)
    ensures Serve(auth, reachable, s, input, written) == Outcome(s, input, written)
  {
  }

  lemma ConsultOne(a: Ask, c: Client, b: Data, rest: Data, written: Data)
    requires !ClientDone(c) && |b| == ClientNeed(c)
    ensures var (next, out) := ClientNext(a, c, b);
            Consult(a, c, b + rest, written)
              == Consult(a, next, rest, if out == [] then written else written + out)
  {
    Reads(b + rest, b, rest);
    assert written + [] == written;
  }

  lemma ConsultEnds(a: Ask, c: Client, input: Data, written: Data)
    ensures ClientDone(c) ==> Consult(a, c, input, written) == Outcome(c, input, written)
    ensures !ClientDone(c) && |input| < ClientNeed(c) ==> Consult(a, c, input, written) == Outcome(Failed, [], written)
  {
  }

  method HasMethod(methods: array<Byte>, m: Byte) returns (found: bool)
    ensures found <==> m in methods[..]
  {
    for i := 0 to methods.Length
      invariant m !in methods[..i]
    {
      if methods[i] == m {
        return true;
      }
    }
    return false;
  }

  method Put(conn: Conn, bytes: Data)
    modifies conn`output
    ensures conn.output == old(conn.output) + bytes
  {
    conn.output := conn.output + bytes;
  }

  /** Reads n bytes or fails with the stream used up. */
  method Take(conn: Conn, n: nat) returns (ok: bool, b: array<Byte>)
    modifies conn`input
    ensures fresh(b) && ok == (|old(conn.input)| >= n)
    ensures ok ==> |b[..]| == n && old(conn.input) == b[..] + conn.input
    ensures !ok ==> conn.input == []
  {
    b := new Byte[n];
    ok := conn.ReadFull(b);
  }

  /** One read of the server, at the point s. */
  method ServerTake(conn: Conn, n: nat, ghost auth: Auth, ghost reachable: bool, ghost s: Server)
    returns (ok: bool, b: array<Byte>)
    requires !ServerDone(s) && n == ServerNeed(s)
    modifies conn`input
    ensures fresh(b) && (ok ==> b.Length == n)
    ensures Serve(auth, reachable, s, old(conn.input), conn.output) ==
              if ok then
                var (next, out) := ServerNext(auth, reachable, s, b[..]);
                Serve(auth, reachable, next, conn.input, if out == [] then conn.output else conn.output + out)
              else Outcome(Closed, conn.input, conn.output + CutOffReply(s))
  {
    hide Serve;
    ok, b := Take(conn, n);
    if ok {
      ServeOne(auth, reachable, s, b[..], conn.input, conn.output);
    } else {
      ServeCutOff(auth, reachable, s, old(conn.input), conn.output);
    }
  }

  method ReadAuth(conn: Conn, auth: Auth, ghost reachable: bool) returns (who: Option<Creds>)
    modifies conn`input
    ensures Serve(auth, reachable, AuthHead, old(conn.input), conn.output) ==
              match who
              case Some(_) => Serve(auth, reachable, Request(who), conn.input, conn.output + [1, 0])
              case None => Outcome(Closed, conn.input, conn.output + [1, 1])
  {
    hide Serve;
    var ok, h := ServerTake(conn, 2, auth, reachable, AuthHead);
    if !ok {
      return None;
    }
    if h[0] != 1 {
      ServeDone(auth, reachable, Closed, conn.input, conn.output + [1, 1]);
      return None;
    }
    var user, length, pass;
    ok, user := ServerTake(conn, h[1], auth, reachable, User(h[1]));
    if !ok {
      return None;
    }
    ok, length := ServerTake(conn, 1, auth, reachable, PassLength(user[..]));
    if !ok {
      return None;
    }
    ok, pass := ServerTake(conn, length[0], auth, reachable, Pass(user[..], length[0]));
    if !ok {
      return None;
    }
    if auth.None? || !auth.value(Creds(user[..], pass[..])) {
      ServeDone(auth, reachable, Closed, conn.input, conn.output + [1, 1]);
      return None;
    }
    return Some(Creds(user[..], pass[..]));
  }

  method ReadAddr(conn: Conn, atyp: Byte, ghost auth: Auth, ghost reachable: bool, ghost who: Option<Creds>,
                  ghost cmd: Byte)
    returns (addr: Option<Addr>)
    requires atyp in {ATYP_IPV4, ATYP_IPV6, ATYP_HOST}
    modifies conn`input
    ensures Serve(auth, reachable, if atyp == ATYP_HOST then NameLength(who, cmd) else Ip(who, cmd, atyp),
                  old(conn.input), conn.output) ==
              match addr
              case Some(a) => Serve(auth, reachable, Port(who, cmd, a), conn.input, conn.output)
              case None => Outcome(Closed, conn.input, conn.output + Reply(8))
  {
    hide Serve;
    var ok, b;
    if atyp == ATYP_HOST {
      var length;
      ok, length := ServerTake(conn, 1, auth, reachable, NameLength(who, cmd));
      if !ok {
        return None;
      }
      ok, b := ServerTake(conn, length[0], auth, reachable, HostName(who, cmd, length[0]));
      return if ok then Some(Name(b[..])) else None;
    }
    ok, b := ServerTake(conn, if atyp == ATYP_IPV4 then 4 else 16, auth, reachable, Ip(who, cmd, atyp));
    return if !ok then None else Some(if atyp == ATYP_IPV4 then IPv4(b[..]) else IPv6(b[..]));
  }

  /** The server on one connection. What it does is what its steps do when they are taken one after the
      other; `reachable` is whether the dial it may make succeeds. */
  method Handle(conn: Conn, auth: Auth, reachable: bool) returns (end: Server)
    modifies conn
    ensures Outcome(end, conn.input, conn.output) ==
            Serve(auth, reachable, Greeting, old(conn.input), old(conn.output))
  {
    var who := Greet(conn, auth, reachable);
    end := Closed;
    if who.Some? {
      end := Answer(conn, auth, reachable, who.value);
    }
  }

  /** The greeting and the password, up to the request; nothing once the connection is given up. */
  method Greet(conn: Conn, auth: Auth, ghost reachable: bool) returns (who: Option<Option<Creds>>)
    modifies conn
    ensures Serve(auth, reachable, Greeting, old(conn.input), old(conn.output)) ==
              match who
              case Some(w) => Serve(auth, reachable, Request(w), conn.input, conn.output)
              case None => Outcome(Closed, conn.input, conn.output)
  {
    hide Serve;
    var ok, br := ServerTake(conn, 2, auth, reachable, Greeting);
    if !ok {
      assert conn.output + [] == conn.output;
      return None;
    }
    if br[0] != VER5 {
      ServeDone(auth, reachable, Closed, conn.input, conn.output);
      return None;
    }
    var methods;
    ok, methods := ServerTake(conn, br[1], auth, reachable, Methods(br[1]));
    if !ok {
      assert conn.output + [] == conn.output;
      return None;
    }
    var found := HasMethod(methods, if auth.None? then AUTH_NONE else AUTH_UP);
    if !found {
      Put(conn, [VER5, NO_METHOD]);
      ServeDone(auth, reachable, Closed, conn.input, conn.output);
      return None;
    }
    if auth.None? {
      Put(conn, [VER5, AUTH_NONE]);
      return Some(None);
    }
    Put(conn, [VER5, AUTH_UP]);
    var user := ReadAuth(conn, auth, reachable);
    if user.None? {
      Put(conn, [1, 1]);
      return None;
    }
    Put(conn, [1, 0]);
    return Some(user);
  }

  /** The request. */
  method Answer(conn: Conn, ghost auth: Auth, reachable: bool, who: Option<Creds>) returns (end: Server)
    modifies conn
    ensures Outcome(end, conn.input, conn.output) ==
            Serve(auth, reachable, Request(who), old(conn.input), old(conn.output))
  {
    hide Serve;
    end := Closed;
    var ok, head := ServerTake(conn, 4, auth, reachable, Request(who));
    if !ok {
      Put(conn, Reply(7));
      return;
    }
    if head[0] != VER5 {
      Put(conn, Reply(7));
      ServeDone(auth, reachable, Closed, conn.input, conn.output);
      return;
    }
    if head[3] !in {ATYP_IPV4, ATYP_IPV6, ATYP_HOST} {
      Put(conn, Reply(8));
      ServeDone(auth, reachable, Closed, conn.input, conn.output);
      return;
    }
    var addr := ReadAddr(conn, head[3], auth, reachable, who, head[1]);
    if addr.None? {
      Put(conn, Reply(8));
      return;
    }
    var port;
    ok, port := ServerTake(conn, 2, auth, reachable, Port(who, head[1], addr.value));
    if !ok {
      Put(conn, Reply(1));
      return;
    }
    if head[1] == CMD_CONNECT {
      if reachable {
        end := Relay(who, Target(addr.value, FromU16(port[0], port[1])));
        Put(conn, Reply(REP_OK));
      } else {
        Put(conn, Reply(5));
      }
    } else if head[1] == CMD_UDP {
      end := UdpRelay(who);
    } else {
      Put(conn, Reply(7));
    }
    ServeDone(auth, reachable, end, conn.input, conn.output);
  }

  /** One read of the client, at the point c. */
  method ClientTake(conn: Conn, n: nat, ghost a: Ask, ghost c: Client) returns (ok: bool, b: array<Byte>)
    requires !ClientDone(c) && n == ClientNeed(c)
    modifies conn`input
    ensures fresh(b) && (ok ==> b.Length == n)
    ensures Consult(a, c, old(conn.input), conn.output) ==
              if ok then
                var (next, out) := ClientNext(a, c, b[..]);
                Consult(a, next, conn.input, if out == [] then conn.output else conn.output + out)
              else Outcome(Failed, conn.input, conn.output)
  {
    hide Consult;
    ok, b := Take(conn, n);
    if ok {
      ConsultOne(a, c, b[..], conn.input, conn.output);
    } else {
      ConsultEnds(a, c, old(conn.input), conn.output);
    }
  }

  /** The client on one connection. */
  method Negotiate(conn: Conn, a: Ask) returns (ok: bool)
    modifies conn
    ensures Consult(a, MethodReply, old(conn.input), old(conn.output) + Offer(a)) ==
            Outcome(if ok then Connected else Failed, conn.input, conn.output)
  {
    hide Consult;
    Put(conn, Offer(a));
    var resp;
    ok, resp := ClientTake(conn, 2, a, MethodReply);
    if !ok {
      return;
    }
    if resp[0] != VER5 || resp[1] != Offered(a) {
      ConsultEnds(a, Failed, conn.input, conn.output);
      return false;
    }
    if !NoAuth(a) {
      Put(conn, AuthMessage(a));
      ok, resp := ClientTake(conn, 2, a, AuthReply);
      if !ok {
        return;
      }
      if resp[1] != 0 {
        ConsultEnds(a, Failed, conn.input, conn.output);
        return false;
      }
    }
    Put(conn, RequestMessage(a));
    ok := AwaitReply(conn, a);
  }

  /** The reply, read to its last byte. */
  method AwaitReply(conn: Conn, ghost a: Ask) returns (ok: bool)
    modifies conn`input
    ensures Consult(a, ReplyHead, old(conn.input), conn.output) ==
            Outcome(if ok then Connected else Failed, conn.input, conn.output)
  {
    hide Consult;
    var head, rest;
    ok, head := ClientTake(conn, 4, a, ReplyHead);
    if !ok {
      return;
    }
    if head[1] != REP_OK {
      ConsultEnds(a, Failed, conn.input, conn.output);
      return false;
    }
    var skip: nat := 0;
    if head[3] == ATYP_IPV4 {
      skip := 4 + 2;
    } else if head[3] == ATYP_IPV6 {
      skip := 16 + 2;
    } else if head[3] == ATYP_HOST {
      var l;
      ok, l := ClientTake(conn, 1, a, BoundLength);
      if !ok {
        return;
      }
      skip := l[0];
      skip := skip + 2;
    } else {
      ConsultEnds(a, Failed, conn.input, conn.output);
      return false;
    }
    ok, rest := ClientTake(conn, skip, a, Bound(skip));
    if ok {
      ConsultEnds(a, Connected, conn.input, conn.output);
    }
  }
}

/** The datagrams of UDP ASSOCIATE (RFC 1928 section 7). */
module SocksDatagrams {
  import opened Bytes
  import opened SocksHandshake

  predicate Encodable(t: Target) {
    && t.port <= 65535
    && match t.addr
       case IPv4(ip) => |ip| == 4
       case IPv6(ip) => |ip| == 16
       case Name(name) => |name| <= 255
  }

  function AddrBytes(addr: Addr): Data
    requires addr.Name? ==> |addr.name| <= 255
  {
    match addr
    case IPv4(ip) => [ATYP_IPV4] + ip
    case IPv6(ip) => [ATYP_IPV6] + ip
    case Name(name) => [ATYP_HOST, |name|] + name
  }

  /** The header in front of the data; the two reserved bytes may be anything. */
  function Header(reserved: Data, t: Target): Data
    requires Encodable(t)
  {
    reserved + [0] + AddrBytes(t.addr) + U16(t.port)
  }

  datatype Datagram = Datagram(reserved: Data, target: Target, data: Data)

  /** These bytes are this datagram. */
  predicate Encodes(b: Data, d: Datagram) {
    |d.reserved| == 2 && Encodable(d.target) && b == Header(d.reserved, d.target) + d.data
  }

  /** What the address type says of the bytes after it: the address and its length on the wire. */
  function AddrAt(b: Data): (r: Option<(Addr, nat)>)
    requires |b| >= 4
    ensures r.Some? ==> r.value.1 <= |b| - 6
  {
    if b[3] == ATYP_IPV4 then if |b| < 10 then None else Some((IPv4(b[4..8]), 4))
    else if b[3] == ATYP_IPV6 then if |b| < 22 then None else Some((IPv6(b[4..20]), 16))
    else if b[3] == ATYP_HOST then
      if |b| < 5 then None
      else
        var l: int := b[4];
        if |b| < 5 + l + 2 then None else Some((Name(b[5..5 + l]), l + 1))
    else None
  }

  lemma EncodedShape(b: Data, d: Datagram)
    requires Encodes(b, d)
    ensures |b| >= 4 && b[2] == 0 && b[..2] == d.reserved
    ensures AddrAt(b) == Some((d.target.addr, |AddrBytes(d.target.addr)| - 1))
    ensures var end := 3 + |AddrBytes(d.target.addr)|;
            && end + 2 <= |b| && b[end..end + 2] == U16(d.target.port) && b[end + 2..] == d.data
            && b[..end + 2] == Header(d.reserved, d.target)
  {
    var addr := AddrBytes(d.target.addr);
    var end := 3 + |addr|;
    assert b == d.reserved + ([0] + (addr + (U16(d.target.port) + d.data)));
    assert b[3..end] == addr;
    match d.target.addr
    case IPv4(ip) => assert b[4..8] == addr[1..5] == ip;
    case IPv6(ip) => assert b[4..20] == addr[1..17] == ip;
    case Name(name) => assert b[4] == |name| && b[5..5 + |name|] == addr[2..] == name;
  }

  lemma AddrAtEncodes(b: Data)
    requires |b| >= 4 && AddrAt(b).Some?
    ensures var (addr, n) := AddrAt(b).value;
            && Encodable(Target(addr, 0)) && |AddrBytes(addr)| == n + 1
            && b[3..4 + n] == AddrBytes(addr)
  {
    var (addr, n) := AddrAt(b).value;
    assert b[3..4 + n] == [b[3]] + b[4..4 + n];
    if b[3] == ATYP_HOST {
      assert b[4..4 + n] == [b[4]] + b[5..4 + n];
    }
  }

  /** Splits a client's datagram. It succeeds exactly on encoded datagrams, and then with what was encoded. */
  method ParseUdpDatagram(b: Data) returns (ok: bool, target: Target, data: Data, header: Data)
    ensures ok ==> header + data == b
    ensures ok ==> |b| >= 2 && Encodes(b, Datagram(b[..2], target, data)) && header == Header(b[..2], target)
    ensures forall d | Encodes(b, d) :: ok && d == Datagram(b[..2], target, data)
  {
    target, data, header := Target(IPv4([]), 0), [], [];
    ok := false;
    forall d | Encodes(b, d)
      ensures |b| >= 4 && b[2] == 0 && AddrAt(b).Some?
    {
      EncodedShape(b, d);
    }
    if |b| < 4 || b[2] != 0 {
      return;
    }
    var pos, host := 4, IPv4([]);
    if b[3] == ATYP_IPV4 {
      if |b| < pos + 4 + 2 {
        return;
      }
      host := IPv4(b[pos..pos + 4]);
      pos := pos + 4;
    } else if b[3] == ATYP_IPV6 {
      if |b| < pos + 16 + 2 {
        return;
      }
      host := IPv6(b[pos..pos + 16]);
      pos := pos + 16;
    } else if b[3] == ATYP_HOST {
      if |b| < pos + 1 {
        return;
      }
      var l: int := b[pos];
      pos := pos + 1;
      if |b| < pos + l + 2 {
        return;
      }
      host := Name(b[pos..pos + l]);
      pos := pos + l;
    } else {
      return;
    }
    assert AddrAt(b) == Some((host, pos - 4));
    target := Target(host, FromU16(b[pos], b[pos + 1]));
    pos := pos + 2;
    header, data, ok := b[..pos], b[pos..], true;
    ParsedIsEncoded(b, target, pos);
  }

  lemma ParsedIsEncoded(b: Data, target: Target, pos: nat)
    requires |b| >= 4 && b[2] == 0 && 6 <= pos <= |b| && AddrAt(b) == Some((target.addr, pos - 6))
    requires target.port == FromU16(b[pos - 2], b[pos - 1])
    ensures Encodes(b, Datagram(b[..2], target, b[pos..])) && b[..pos] == Header(b[..2], target)
    ensures forall d | Encodes(b, d) :: d == Datagram(b[..2], target, b[pos..])
  {
    AddrAtEncodes(b);
    FromU16Inverse(b[pos - 2], b[pos - 1]);
    hide U16, FromU16, AddrBytes, AddrAt;
    assert b[..pos] == b[..2] + [b[2]] + b[3..pos - 2] + [b[pos - 2], b[pos - 1]];
    assert b == b[..pos] + b[pos..];
    var e := Datagram(b[..2], target, b[pos..]);
    assert Encodes(b, e);
    forall d | Encodes(b, d)
      ensures d == e
    {
      EncodingIsUnique(b, d, e);
    }
  }

  /** No two datagrams share an encoding. */
  lemma EncodingIsUnique(b: Data, d: Datagram, e: Datagram)
    requires Encodes(b, d) && Encodes(b, e)
    ensures d == e
  {
    EncodedShape(b, d);
    EncodedShape(b, e);
    hide U16, AddrBytes, AddrAt, Header;
    U16Injective(d.target.port, e.target.port);
  }
}

/** What the code of either end does with any stream at all, in the bytes of RFC 1928 and RFC 1929. */
module SocksStreams {
  import opened Bytes
  import opened SocksHandshake
  import opened SocksEnds
  import opened SocksDatagrams

  /** The server's reply with this code; it always names the bound address 0.0.0.0:0. */
  function Said(code: Byte): Data {
    [5, code, 0, 1, 0, 0, 0, 0, 0, 0]
  }

  /** The stream asks for a command on a target, and goes on with rest. */
  predicate Asks(input: Data, cmd: Byte, t: Target, rest: Data) {
    |input| >= 4 && Encodable(t) && input == [5, cmd, input[2]] + AddrBytes(t.addr) + U16(t.port) + rest
  }

  function AfterHead(who: Option<Creds>, cmd: Byte, atyp: Byte): Server {
    if atyp == 3 then NameLength(who, cmd) else Ip(who, cmd, atyp)
  }

  lemma HeadServed(auth: Auth, reachable: bool, who: Option<Creds>, ver: Byte, cmd: Byte, rsv: Byte, atyp: Byte,
                   rest: Data, w: Data)
    ensures Serve(auth, reachable, Request(who), [ver, cmd, rsv, atyp] + rest, w) ==
            if ver != 5 then Outcome(Closed, rest, w + Said(7))
            else if atyp != 1 && atyp != 3 && atyp != 4 then Outcome(Closed, rest, w + Said(8))
            else Serve(auth, reachable, AfterHead(who, cmd, atyp), rest, w)
  {
    hide Serve;
    var head := [ver, cmd, rsv, atyp];
    ServeOne(auth, reachable, Request(who), head, rest, w);
    ServeDone(auth, reachable, Closed, rest, w + Said(7));
    ServeDone(auth, reachable, Closed, rest, w + Said(8));
  }

  /** The address, of any of the three kinds. */
  lemma AddrServed(auth: Auth, reachable: bool, who: Option<Creds>, cmd: Byte, addr: Addr, rest: Data, w: Data)
    requires Encodable(Target(addr, 0))
    ensures Serve(auth, reachable, AfterHead(who, cmd, AddrBytes(addr)[0]), AddrBytes(addr)[1..] + rest, w) ==
            Serve(auth, reachable, Port(who, cmd, addr), rest, w)
  {
    hide Serve;
    match addr
    case IPv4(ip) =>
      assert AddrBytes(addr)[1..] == ip;
      ServeOne(auth, reachable, Ip(who, cmd, 1), ip, rest, w);
    case IPv6(ip) =>
      assert AddrBytes(addr)[1..] == ip;
      ServeOne(auth, reachable, Ip(who, cmd, 4), ip, rest, w);
    case Name(name) =>
      assert AddrBytes(addr)[1..] + rest == [|name|] + (name + rest);
      ServeOne(auth, reachable, NameLength(who, cmd), [|name|], name + rest, w);
      ServeOne(auth, reachable, HostName(who, cmd, |name|), name, rest, w);
  }

  lemma PortServed(auth: Auth, reachable: bool, who: Option<Creds>, cmd: Byte, t: Target, rest: Data, w: Data)
    requires Encodable(t)
    ensures Serve(auth, reachable, Port(who, cmd, t.addr), U16(t.port) + rest, w) == Ending(who, reachable, cmd, t, rest, w)
  {
    hide Serve;
    U16Value(t.port);
    ServeOne(auth, reachable, Port(who, cmd, t.addr), U16(t.port), rest, w);
    var end := Ending(who, reachable, cmd, t, rest, w);
    assert Target(t.addr, t.port) == t;
    ServeDone(auth, reachable, end.end, rest, end.written);
  }

  /** How a whole request ends: CONNECT dials, UDP ASSOCIATE goes on without a reply of this step, and anything
      else is refused as an unknown command. */
  function Ending(who: Option<Creds>, reachable: bool, cmd: Byte, t: Target, rest: Data, w: Data): Outcome<Server> {
    if cmd == 1 && reachable then Outcome(Relay(who, t), rest, w + Said(0))
    else if cmd == 1 then Outcome(Closed, rest, w + Said(5))
    else if cmd == 3 then Outcome(UdpRelay(who), rest, w)
    else Outcome(Closed, rest, w + Said(7))
  }

  /** Every request, whatever the kind of its address, is served as the command it names asks. */
  lemma RequestServed(auth: Auth, reachable: bool, who: Option<Creds>, input: Data, cmd: Byte, t: Target, rest: Data,
                      w: Data)
    requires Asks(input, cmd, t, rest)
    ensures Serve(auth, reachable, Request(who), input, w) == Ending(who, reachable, cmd, t, rest, w)
  {
    var addr := AddrBytes(t.addr);
    var tail := U16(t.port) + rest;
    assert input == [5, cmd, input[2], addr[0]] + (addr[1..] + tail);
    hide Serve, AddrBytes, U16, AfterHead, Ending;
    HeadServed(auth, reachable, who, 5, cmd, input[2], addr[0], addr[1..] + tail, w);
    KindOf(t.addr);
    AddrServed(auth, reachable, who, cmd, t.addr, tail, w);
    PortServed(auth, reachable, who, cmd, t, rest, w);
  }

  lemma KindOf(addr: Addr)
    requires addr.Name? ==> |addr.name| <= 255
    ensures AddrBytes(addr)[0] == (match addr case IPv4(_) => 1 case IPv6(_) => 4 case Name(_) => 3)
  {
  }

  /** A stream long enough to hold an address of its kind, and a port, asks for something. */
  lemma AsksAt(input: Data, cmd: Byte)
    requires |input| >= 4 && input[0] == 5 && input[1] == cmd && AddrAt(input).Some?
    ensures var (addr, n) := AddrAt(input).value;
            Asks(input, cmd, Target(addr, FromU16(input[4 + n], input[5 + n])), input[6 + n..])
  {
    AddrAtEncodes(input);
    var (addr, n) := AddrAt(input).value;
    FromU16Inverse(input[4 + n], input[5 + n]);
    hide AddrAt, AddrBytes, U16, FromU16;
    assert input == [5, cmd, input[2]] + input[3..4 + n] + [input[4 + n], input[5 + n]] + input[6 + n..];
  }

  /** What the stream holds of the address after the four bytes of the head, when it does not hold it and the port. */
  lemma ShortServed(auth: Auth, reachable: bool, who: Option<Creds>, cmd: Byte, atyp: Byte, tail: Data, w: Data)
    requires atyp == 1 || atyp == 3 || atyp == 4
    requires |tail| < AddrLength(atyp, tail) + 2
    ensures Serve(auth, reachable, AfterHead(who, cmd, atyp), tail, w) ==
            Outcome(Closed, [], w + Said(if |tail| < AddrLength(atyp, tail) then 8 else 1))
  {
    hide Serve;
    var n := AddrLength(atyp, tail);
    if |tail| < n && (atyp != 3 || tail == []) {
      ServeCutOff(auth, reachable, AfterHead(who, cmd, atyp), tail, w);
    } else if atyp != 3 {
      var addr := if atyp == 1 then IPv4(tail[..n]) else IPv6(tail[..n]);
      assert tail == tail[..n] + tail[n..];
      ServeOne(auth, reachable, Ip(who, cmd, atyp), tail[..n], tail[n..], w);
      ServeCutOff(auth, reachable, Port(who, cmd, addr), tail[n..], w);
    } else {
      assert tail == [tail[0]] + tail[1..];
      ServeOne(auth, reachable, NameLength(who, cmd), [tail[0]], tail[1..], w);
      var m: nat := tail[0];
      if |tail| < n {
        ServeCutOff(auth, reachable, HostName(who, cmd, m), tail[1..], w);
      } else {
        assert tail[1..] == tail[1..n] + tail[n..];
        ServeOne(auth, reachable, HostName(who, cmd, m), tail[1..n], tail[n..], w);
        ServeCutOff(auth, reachable, Port(who, cmd, Name(tail[1..n])), tail[n..], w);
      }
    }
  }

  /** How long the address is on the wire, its own length byte included, as far as the stream tells. */
  function AddrLength(atyp: Byte, tail: Data): nat {
    if atyp == 1 then 4 else if atyp == 4 then 16 else if tail == [] then 1
    else
      var n: int := tail[0];
      1 + n
  }

  /** Every stream that is no request: one that ends too early, with the code of the part it ends in; one of
      another version; one with an address of no known kind. */
  lemma NoRequestServed(auth: Auth, reachable: bool, who: Option<Creds>, input: Data, w: Data)
    requires forall cmd, t, rest :: !Asks(input, cmd, t, rest)
    ensures Serve(auth, reachable, Request(who), input, w).end == Closed
    ensures Serve(auth, reachable, Request(who), input, w).written == w + Said(
              if |input| < 4 || input[0] != 5 then 7
              else if input[3] != 1 && input[3] != 3 && input[3] != 4 then 8
              else if |input[4..]| < AddrLength(input[3], input[4..]) then 8
              else 1)
  {
    hide Serve;
    if |input| < 4 {
      ServeCutOff(auth, reachable, Request(who), input, w);
    } else {
      assert input == [input[0], input[1], input[2], input[3]] + input[4..];
      HeadServed(auth, reachable, who, input[0], input[1], input[2], input[3], input[4..], w);
      if input[0] == 5 && (input[3] == 1 || input[3] == 3 || input[3] == 4) {
        if AddrAt(input).Some? {
          AsksAt(input, input[1]);
          assert false;
        }
        ShortServed(auth, reachable, who, input[1], input[3], input[4..], w);
      }
    }
  }

  /** The server relays to a target if and only if the stream asks to be connected to it and the dial succeeds. */
  lemma RelaysIff(auth: Auth, reachable: bool, who: Option<Creds>, input: Data, t: Target, rest: Data, w: Data)
    ensures Serve(auth, reachable, Request(who), input, w) == Outcome(Relay(who, t), rest, w + Said(0)) <==>
            reachable && Asks(input, 1, t, rest)
  {
    hide Serve, Asks;
    if cmd, u, r :| Asks(input, cmd, u, r) {
      RequestServed(auth, reachable, who, input, cmd, u, r, w);
      OneRequest(input, cmd, u, r, t, rest);
    } else {
      NoRequestServed(auth, reachable, who, input, w);
    }
  }

  /** A stream asks for one thing only. */
  lemma OneRequest(input: Data, cmd: Byte, t: Target, rest: Data, u: Target, more: Data)
    requires Asks(input, cmd, t, rest)
    ensures Asks(input, 1, u, more) <==> cmd == 1 && u == t && more == rest
  {
    if Asks(input, 1, u, more) {
      assert cmd == input[1] == 1;
      AsDatagram(input, cmd, t, rest);
      AsDatagram(input, 1, u, more);
      hide Asks;
      EncodingIsUnique([0, 0, 0] + input[3..], Datagram([0, 0], t, rest), Datagram([0, 0], u, more));
    }
  }

  /** From its address on a request is laid out as a datagram is. */
  lemma AsDatagram(input: Data, cmd: Byte, t: Target, rest: Data)
    requires Asks(input, cmd, t, rest)
    ensures Encodes([0, 0, 0] + input[3..], Datagram([0, 0], t, rest))
  {
    hide AddrBytes, U16;
    assert input[3..] == AddrBytes(t.addr) + U16(t.port) + rest;
    assert [0, 0, 0] + input[3..] == Header([0, 0], t) + rest;
  }

  // ---- The greeting and the password ----

  /** The greeting is answered by whether the one method the server goes by is among those offered. */
  lemma GreetingServed(auth: Auth, reachable: bool, methods: Data, rest: Data, w: Data)
    requires |methods| <= 255
    ensures Serve(auth, reachable, Greeting, [5, |methods|] + methods + rest, w) ==
            if auth.None? && 0 in methods then Serve(auth, reachable, Request(None), rest, w + [5, 0])
            else if auth.Some? && 2 in methods then Serve(auth, reachable, AuthHead, rest, w + [5, 2])
            else Outcome(Closed, rest, w + [5, 255])
  {
    hide Serve;
    assert [5, |methods|] + methods + rest == [5, |methods|] + (methods + rest);
    ServeOne(auth, reachable, Greeting, [5, |methods|], methods + rest, w);
    ServeOne(auth, reachable, Methods(|methods|), methods, rest, w);
    ServeDone(auth, reachable, Closed, rest, w + [5, 255]);
  }

  lemma OtherVersionsServed(auth: Auth, reachable: bool, ver: Byte, n: Byte, rest: Data, w: Data)
    ensures ver != 5 ==> Serve(auth, reachable, Greeting, [ver, n] + rest, w) == Outcome(Closed, rest, w)
    ensures ver != 1 ==> Serve(auth, reachable, AuthHead, [ver, n] + rest, w) == Outcome(Closed, rest, w + [1, 1])
  {
    hide Serve;
    ServeOne(auth, reachable, Greeting, [ver, n], rest, w);
    ServeOne(auth, reachable, AuthHead, [ver, n], rest, w);
    ServeDone(auth, reachable, Closed, rest, w);
    ServeDone(auth, reachable, Closed, rest, w + [1, 1]);
  }

  function Password(creds: Creds): Data
    requires |creds.user| <= 255 && |creds.pass| <= 255
  {
    [1, |creds.user|] + creds.user + [|creds.pass|] + creds.pass
  }

  /** The password is accepted or refused for exactly what was sent, and both are said. */
  lemma PasswordServed(auth: Auth, reachable: bool, creds: Creds, rest: Data, w: Data)
    requires auth.Some? && |creds.user| <= 255 && |creds.pass| <= 255
    ensures Serve(auth, reachable, AuthHead, Password(creds) + rest, w) ==
            if auth.value(creds) then Serve(auth, reachable, Request(Some(creds)), rest, w + [1, 0])
            else Outcome(Closed, rest, w + [1, 1])
  {
    hide Serve;
    var user, pass := creds.user, creds.pass;
    assert Password(creds) + rest == [1, |user|] + (user + ([|pass|] + (pass + rest)));
    assert Creds(user, pass) == creds;
    ServeOne(auth, reachable, AuthHead, [1, |user|], user + ([|pass|] + (pass + rest)), w);
    ServeOne(auth, reachable, User(|user|), user, [|pass|] + (pass + rest), w);
    ServeOne(auth, reachable, PassLength(user), [|pass|], pass + rest, w);
    ServeOne(auth, reachable, Pass(user, |pass|), pass, rest, w);
    ServeDone(auth, reachable, Closed, rest, w + [1, 1]);
  }

  predicate Greets(input: Data, methods: Data, rest: Data) {
    |methods| <= 255 && input == [5, |methods|] + methods + rest
  }

  predicate Authenticates(input: Data, creds: Creds, rest: Data) {
    |creds.user| <= 255 && |creds.pass| <= 255 && input == Password(creds) + rest
  }

  lemma GreetsAt(input: Data)
    requires |input| >= 2 && input[0] == 5 && |input| - 2 >= input[1]
    ensures exists methods, rest :: Greets(input, methods, rest)
  {
    var n: nat := input[1];
    assert Greets(input, input[2..2 + n], input[2 + n..]);
  }

  /** The stream goes on with this password. */
  predicate Passes(tail: Data, pass: Data, rest: Data) {
    |pass| <= 255 && tail == [|pass|] + pass + rest
  }

  lemma PassesAt(tail: Data)
    requires tail != [] && |tail| - 1 >= tail[0]
    ensures exists pass, rest :: Passes(tail, pass, rest)
  {
    var n: nat := tail[0];
    assert Passes(tail, tail[1..1 + n], tail[1 + n..]);
  }

  lemma AuthenticatesAt(input: Data, user: Data, tail: Data, pass: Data, rest: Data)
    requires |user| <= 255 && input == [1, |user|] + (user + tail) && Passes(tail, pass, rest)
    ensures Authenticates(input, Creds(user, pass), rest)
  {
  }

  /** A stream that is no greeting is given up without a word. */
  lemma NoGreetingServed(auth: Auth, reachable: bool, input: Data, w: Data)
    requires forall methods, rest :: !Greets(input, methods, rest)
    ensures Serve(auth, reachable, Greeting, input, w).end == Closed
    ensures Serve(auth, reachable, Greeting, input, w).written == w
  {
    hide Serve;
    assert w + [] == w;
    if |input| < 2 {
      ServeCutOff(auth, reachable, Greeting, input, w);
    } else {
      var n: nat, tail := input[1], input[2..];
      assert input == [input[0], input[1]] + tail;
      ServeOne(auth, reachable, Greeting, [input[0], input[1]], tail, w);
      ServeDone(auth, reachable, Closed, tail, w);
      if input[0] == 5 {
        if |tail| >= n {
          GreetsAt(input);
          assert false;
        }
        ServeCutOff(auth, reachable, Methods(n), tail, w);
      }
    }
  }

  /** A stream that is no user and password, wherever it goes wrong or ends, is refused as a wrong password is. */
  lemma NoPasswordServed(auth: Auth, reachable: bool, input: Data, w: Data)
    requires forall creds, rest :: !Authenticates(input, creds, rest)
    ensures Serve(auth, reachable, AuthHead, input, w).end == Closed
    ensures Serve(auth, reachable, AuthHead, input, w).written == w + [1, 1]
  {
    hide Serve;
    if |input| < 2 {
      ServeCutOff(auth, reachable, AuthHead, input, w);
    } else {
      var n: nat, tail := input[1], input[2..];
      assert input == [input[0], input[1]] + tail;
      ServeOne(auth, reachable, AuthHead, [input[0], input[1]], tail, w);
      ServeDone(auth, reachable, Closed, tail, w + [1, 1]);
      if input[0] == 1 {
        if |tail| < n {
          ServeCutOff(auth, reachable, User(n), tail, w);
        } else {
          var user := tail[..n];
          assert tail == user + tail[n..];
          ServeOne(auth, reachable, User(n), user, tail[n..], w);
          assert input == [1, |user|] + (user + tail[n..]);
          forall pass, rest | Passes(tail[n..], pass, rest)
            ensures Authenticates(input, Creds(user, pass), rest)
          {
            AuthenticatesAt(input, user, tail[n..], pass, rest);
          }
          NoPassServed(auth, reachable, user, tail[n..], w);
        }
      }
    }
  }

  lemma NoPassServed(auth: Auth, reachable: bool, user: Data, tail: Data, w: Data)
    requires forall pass, rest :: !Passes(tail, pass, rest)
    ensures Serve(auth, reachable, PassLength(user), tail, w).end == Closed
    ensures Serve(auth, reachable, PassLength(user), tail, w).written == w + [1, 1]
  {
    hide Serve;
    if tail == [] {
      ServeCutOff(auth, reachable, PassLength(user), tail, w);
    } else {
      var n: nat, more := tail[0], tail[1..];
      assert tail == [tail[0]] + more;
      ServeOne(auth, reachable, PassLength(user), [tail[0]], more, w);
      if |more| >= n {
        PassesAt(tail);
        assert false;
      }
      ServeCutOff(auth, reachable, Pass(user, n), more, w);
    }
  }

  /** A whole session of any client, from its greeting to its request: what the server dials or starts, what it
      leaves unread and every byte it says. */
  lemma SessionServed(auth: Auth, reachable: bool, methods: Data, creds: Creds, input: Data, cmd: Byte, t: Target,
                      rest: Data)
    requires |methods| <= 255 && |creds.user| <= 255 && |creds.pass| <= 255 && Asks(input, cmd, t, rest)
    requires if auth.None? then 0 in methods else 2 in methods && auth.value(creds)
    ensures var sent := [5, |methods|] + methods + (if auth.None? then [] else Password(creds)) + input;
            var who := if auth.None? then None else Some(creds);
            var said := if auth.None? then [5, 0] else [5, 2] + [1, 0];
            Serve(auth, reachable, Greeting, sent, []) == Ending(who, reachable, cmd, t, rest, said)
  {
    hide Serve, Asks, Password, Ending;
    assert [] + [5, 0] == [5, 0] && [] + [5, 2] + [1, 0] == [5, 2] + [1, 0];
    if auth.None? {
      assert [5, |methods|] + methods + [] + input == [5, |methods|] + methods + input;
      GreetingServed(auth, reachable, methods, input, []);
      RequestServed(auth, reachable, None, input, cmd, t, rest, [5, 0]);
    } else {
      var after := Password(creds) + input;
      assert [5, |methods|] + methods + Password(creds) + input == [5, |methods|] + methods + after;
      GreetingServed(auth, reachable, methods, after, []);
      PasswordServed(auth, reachable, creds, input, [] + [5, 2]);
      RequestServed(auth, reachable, Some(creds), input, cmd, t, rest, [5, 2] + [1, 0]);
    }
  }

  // ---- The client ----

  /** The stream is a success reply that names this bound address, and goes on with rest. */
  predicate Succeeds(input: Data, bound: Target, rest: Data) {
    && |input| >= 4 && Encodable(bound)
    && input == [input[0], 0, input[2]] + AddrBytes(bound.addr) + U16(bound.port) + rest
  }

  lemma BoundConsulted(a: Ask, addr: Addr, port: Data, rest: Data, w: Data)
    requires |port| == 2 && Encodable(Target(addr, 0))
    ensures var c := if addr.Name? then BoundLength else Bound(|addr.ip| + 2);
            Consult(a, c, AddrBytes(addr)[1..] + port + rest, w) == Outcome(Connected, rest, w)
  {
    hide Consult;
    match addr
    case IPv4(ip) =>
      assert AddrBytes(addr)[1..] == ip;
      ConsultOne(a, Bound(6), ip + port, rest, w);
      ConsultEnds(a, Connected, rest, w);
    case IPv6(ip) =>
      assert AddrBytes(addr)[1..] == ip;
      ConsultOne(a, Bound(18), ip + port, rest, w);
      ConsultEnds(a, Connected, rest, w);
    case Name(name) =>
      assert AddrBytes(addr)[1..] + port + rest == [|name|] + (name + port + rest);
      ConsultOne(a, BoundLength, [|name|], name + port + rest, w);
      ConsultOne(a, Bound(|name| + 2), name + port, rest, w);
      ConsultEnds(a, Connected, rest, w);
  }

  /** A client that got a success reply is through, with exactly the rest left, whatever address is bound. */
  lemma SuccessConsulted(a: Ask, input: Data, bound: Target, rest: Data, w: Data)
    requires Succeeds(input, bound, rest)
    ensures Consult(a, ReplyHead, input, w) == Outcome(Connected, rest, w)
  {
    hide Consult, U16;
    var addr, port := AddrBytes(bound.addr), U16(bound.port);
    var head := [input[0], 0, input[2], addr[0]];
    assert input == head + (addr[1..] + port + rest);
    KindOf(bound.addr);
    hide AddrBytes;
    ConsultOne(a, ReplyHead, head, addr[1..] + port + rest, w);
    BoundConsulted(a, bound.addr, port, rest, w);
  }

  lemma SucceedsAt(input: Data)
    requires |input| >= 4 && input[1] == 0 && AddrAt(input).Some?
    ensures var (addr, n) := AddrAt(input).value;
            Succeeds(input, Target(addr, FromU16(input[4 + n], input[5 + n])), input[6 + n..])
  {
    AddrAtEncodes(input);
    var (addr, n) := AddrAt(input).value;
    FromU16Inverse(input[4 + n], input[5 + n]);
    hide AddrAt, AddrBytes, U16, FromU16;
    assert input == [input[0], 0, input[2]] + input[3..4 + n] + [input[4 + n], input[5 + n]] + input[6 + n..];
  }

  /** And nothing else gets it through. */
  lemma OthersConsulted(a: Ask, input: Data, w: Data)
    requires forall bound, rest :: !Succeeds(input, bound, rest)
    ensures Consult(a, ReplyHead, input, w).end == Failed && Consult(a, ReplyHead, input, w).written == w
  {
    hide Consult;
    if |input| < 4 {
      ConsultEnds(a, ReplyHead, input, w);
    } else {
      if input[1] == 0 && AddrAt(input).Some? {
        SucceedsAt(input);
        assert false;
      }
      assert input == input[..4] + input[4..];
      ConsultOne(a, ReplyHead, input[..4], input[4..], w);
      ConsultEnds(a, Failed, input[4..], w);
      if input[1] == 0 && (input[3] == 1 || input[3] == 4) {
        ConsultEnds(a, Bound(if input[3] == 1 then 6 else 18), input[4..], w);
      } else if input[1] == 0 && input[3] == 3 {
        ShortNameConsulted(a, input[4..], w);
      }
    }
  }

  lemma ShortNameConsulted(a: Ask, tail: Data, w: Data)
    requires tail != [] ==> |tail[1..]| - 2 < tail[0]
    ensures Consult(a, BoundLength, tail, w) == Outcome(Failed, [], w)
  {
    hide Consult;
    if tail == [] {
      ConsultEnds(a, BoundLength, tail, w);
    } else {
      assert tail == [tail[0]] + tail[1..];
      ConsultOne(a, BoundLength, [tail[0]], tail[1..], w);
      var n: nat := tail[0];
      ConsultEnds(a, Bound(n + 2), tail[1..], w);
    }
  }

  /** The bytes the client has to read before the reply. */
  function PreludeLength(a: Ask): nat {
    if NoAuth(a) then 2 else 4
  }

  /** They choose the method it offered, and accept its password if it has one. */
  predicate LetIn(a: Ask, input: Data) {
    && |input| >= PreludeLength(a) && input[0] == 5
    && if NoAuth(a) then input[1] == 0 else input[1] == 2 && input[3] == 0
  }

  /** All the client says until it waits for the reply. */
  function Asked(a: Ask): Data {
    Offer(a) + (if NoAuth(a) then [] else AuthMessage(a)) + RequestMessage(a)
  }

  lemma PreludeConsulted(a: Ask, input: Data)
    ensures LetIn(a, input) ==> |input| >= PreludeLength(a)
    ensures if LetIn(a, input) then
              Consult(a, MethodReply, input, Offer(a)) == Consult(a, ReplyHead, input[PreludeLength(a)..], Asked(a))
            else Consult(a, MethodReply, input, Offer(a)).end == Failed
  {
    hide Consult, RequestMessage, AuthMessage;
    if |input| < 2 {
      ConsultEnds(a, MethodReply, input, Offer(a));
    } else {
      var reply, rest := input[..2], input[2..];
      assert input == reply + rest;
      ConsultOne(a, MethodReply, reply, rest, Offer(a));
      ConsultEnds(a, Failed, rest, Offer(a));
      assert RequestMessage(a) != [] by { RequestSays(a); }
      if NoAuth(a) {
        assert Offer(a) + [] == Offer(a);
      } else if reply[0] == 5 && reply[1] == 2 {
        RequestSays(a);
        PasswordConsulted(a, rest, Offer(a) + AuthMessage(a));
        assert |rest| >= 2 ==> rest[2..] == input[4..];
      }
    }
  }

  lemma RequestSays(a: Ask)
    ensures RequestMessage(a) != [] && AuthMessage(a) != []
  {
  }

  lemma PasswordConsulted(a: Ask, rest: Data, w: Data)
    ensures if |rest| >= 2 && rest[1] == 0 then
              Consult(a, AuthReply, rest, w) == Consult(a, ReplyHead, rest[2..], w + RequestMessage(a))
            else Consult(a, AuthReply, rest, w).end == Failed
  {
    hide Consult, RequestMessage;
    RequestSays(a);
    if |rest| < 2 {
      ConsultEnds(a, AuthReply, rest, w);
    } else {
      assert rest == rest[..2] + rest[2..];
      ConsultOne(a, AuthReply, rest[..2], rest[2..], w);
      ConsultEnds(a, Failed, rest[2..], w);
    }
  }

  /** The whole client against any stream: it is through if and only if it is let in as it asked and then gets a
      success reply; it has said its greeting, its password if it has one and its request, and left the rest. */
  lemma ThroughIff(a: Ask, input: Data, rest: Data)
    ensures Consult(a, MethodReply, input, Offer(a)) == Outcome(Connected, rest, Asked(a)) <==>
            LetIn(a, input) && exists bound :: Succeeds(input[PreludeLength(a)..], bound, rest)
  {
    hide Consult, Succeeds, LetIn, Asked;
    PreludeConsulted(a, input);
    if LetIn(a, input) {
      var reply := input[PreludeLength(a)..];
      if bound, r :| Succeeds(reply, bound, r) {
        SuccessConsulted(a, reply, bound, r, Asked(a));
        if exists other :: Succeeds(reply, other, rest) {
          var other :| Succeeds(reply, other, rest);
          SuccessConsulted(a, reply, other, rest, Asked(a));
        }
      } else {
        OthersConsulted(a, reply, Asked(a));
      }
    }
  }
}
