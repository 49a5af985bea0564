/**
 * The RabbitMQ client of the auth service: one lazily created instance whose
 * `connection` and `channel` follow connect, close and reconnect events, a
 * `publish` that does nothing without a channel, and the `registerUser`
 * envelope. What goes out over a channel is kept as an append-only log.
 */
module RabbitMQ {
  import opened Wrappers
  import opened JsValues

  const ReconnectDelayMs: nat := 5000
  const AuthExchange: string := "auth_exchange"
  const RegisteredKey: string := "auth.registered"

  /** An amqplib connection or channel, told apart by an identity the broker gives it. */
  datatype Connection = Connection(id: nat)
  datatype Channel = Channel(id: nat)

  /** How one `connect()` goes: `amqp.connect` rejects, or it resolves and
      `createChannel` rejects, or both resolve. */
  datatype ConnectOutcome = ConnectRejected | ChannelRejected(conn: Connection) | Opened(conn: Connection, chan: Channel)

  /** A message handed to `channel.publish`: exchange, routing key, the JSON
      document serialised into the buffer, and the `persistent` option. */
  datatype Message = Message(exchange: string, routingKey: string, content: Json, persistent: bool)

  /** The `UserRegistered` event as a consumer reads it back. */
  datatype Registration = Registration(id: nat, email: string, passwordHash: string)

  /** The payload `registerUser` publishes. */
  function RegisteredEnvelope(userId: nat, email: string, hashedPassword: string): (j: Json)
    ensures j.JObject? && j.fields.Keys == {"event", "id", "email", "password"}
  {
    JObject(map["event" := JString("UserRegistered"), "id" := JString(DecimalString(userId)),
                "email" := JString(email), "password" := JString(hashedPassword)])
  }

  /** How a consumer of `auth.registered` reads an event: a `UserRegistered` object
      whose id is a decimal text and whose email and password are strings. */
  function DecodeRegistered(j: Json): Option<Registration>
  {
    match (StringField(j, "event"), StringField(j, "id"), StringField(j, "email"), StringField(j, "password"))
    case (Some(ev), Some(id), Some(email), Some(password)) =>
      if ev == "UserRegistered" && id != [] && IsDigits(id)
      then Some(Registration(ParseDecimal(id), email, password))
      else None
    case _ => None
  }

  /** The envelope carries exactly the id, email and hash it was built from. */
  lemma EnvelopeRoundTrip(userId: nat, email: string, hashedPassword: string)
    ensures DecodeRegistered(RegisteredEnvelope(userId, email, hashedPassword))
            == Some(Registration(userId, email, hashedPassword))
  {
    ParseDecimalString(userId);
  }

  class RabbitMQClient {
    var connection: Option<Connection>
    var channel: Option<Channel>
    /** The connections on which this client registered its "close" and "error" handlers. */
    var listening: set<Connection>
    /** The delays of the `setTimeout(() => this.connect(), 5000)` calls not yet fired, oldest first. */
    var timers: seq<nat>
    /** Every message handed to a channel, in order. */
    var sent: seq<Message>

    /** Between calls the client has both a connection and a channel or neither,
        and a current connection always has the client's handlers on it. */
    ghost predicate Valid()
      reads this
    {
      (connection.Some? <==> channel.Some?) &&
      (connection.Some? ==> connection.value in listening)
    }

    /** The private constructor: no connection, no channel. */
    constructor ()
      ensures Valid()
      ensures connection == None && channel == None
      ensures listening == {} && timers == [] && sent == []
    {
      connection := None;
      channel := None;
      listening := {};
      timers := [];
      sent := [];
    }

    /** `connect()`: on success both fields are set, connection first, and the close
        and error handlers are attached; on any rejection it calls `reconnect()`. */
    method Connect(outcome: ConnectOutcome)
      requires Valid()
      modifies this
      ensures Valid()
      ensures sent == old(sent)
      ensures outcome.Opened? ==>
                connection == Some(outcome.conn) && channel == Some(outcome.chan) &&
                listening == old(listening) + {outcome.conn} && timers == old(timers)
      ensures !outcome.Opened? ==>
                connection == None && channel == None &&
                listening == old(listening) && timers == old(timers) + [ReconnectDelayMs]
    {
      match outcome
      case Opened(conn, chan) =>
        connection := Some(conn);
        channel := Some(chan);
        listening := listening + {conn};
      case ChannelRejected(conn) =>
        connection := Some(conn);
        Reconnect();
      case ConnectRejected =>
        Reconnect();
    }

    /** `reconnect()`: drops both fields and schedules `connect()` in 5000 ms. */
    method Reconnect()
      modifies this
      ensures connection == None && channel == None
      ensures timers == old(timers) + [ReconnectDelayMs]
      ensures listening == old(listening) && sent == old(sent)
      ensures Valid()
    {
      connection := None;
      channel := None;
      timers := timers + [ReconnectDelayMs];
    }

    /** The oldest pending reconnect timer fires and runs `connect()`. */
    method ReconnectTimerFires(outcome: ConnectOutcome)
      requires Valid()
      modifies this
      ensures Valid()
      ensures sent == old(sent)
      ensures old(timers) == [] ==> connection == old(connection) && channel == old(channel) && timers == []
      ensures old(timers) != [] && outcome.Opened? ==>
                connection == Some(outcome.conn) && channel == Some(outcome.chan) && timers == old(timers)[1..]
      ensures old(timers) != [] && !outcome.Opened? ==>
                connection == None && channel == None && timers == old(timers)[1..] + [ReconnectDelayMs]
      ensures listening == old(listening) + (if old(timers) != [] && outcome.Opened? then {outcome.conn} else {})
    {
      if timers != [] {
        timers := timers[1..];
        Connect(outcome);
      }
    }

    /** A "close" event on `conn` runs the handler attached to it, which calls `reconnect()`. */
    method ConnectionClosed(conn: Connection)
      requires Valid()
      modifies this
      ensures Valid()
      ensures sent == old(sent) && listening == old(listening)
      ensures conn in listening ==> connection == None && channel == None && timers == old(timers) + [ReconnectDelayMs]
      ensures conn !in listening ==> connection == old(connection) && channel == old(channel) && timers == old(timers)
    {
      if conn in listening {
        Reconnect();
      }
    }

    /** An "error" event only logs. */
    method ConnectionError(conn: Connection)
      ensures unchanged(this)
    {
    }

    /** `publish(exchange, routingKey, message)`: without a channel nothing is sent
        and the call still returns normally; with one, exactly the JSON of `message`
        goes out, persistent. */
    method Publish(exchange: string, routingKey: string, message: Json)
      modifies this`sent
      ensures channel.None? ==> sent == old(sent)
      ensures channel.Some? ==> sent == old(sent) + [Message(exchange, routingKey, message, true)]
    {
      if channel.None? {
        return;
      }
      sent := sent + [Message(exchange, routingKey, message, true)];
    }

    /** `registerUser(userId, email, hashedPassword)`: a `UserRegistered` event on
        `auth_exchange` with key `auth.registered`. */
    method RegisterUser(userId: nat, email: string, hashedPassword: string)
      modifies this`sent
      ensures channel.None? ==> sent == old(sent)
      ensures channel.Some? ==>
                sent == old(sent) + [Message(AuthExchange, RegisteredKey, RegisteredEnvelope(userId, email, hashedPassword), true)]
    {
      Publish(AuthExchange, RegisteredKey, RegisteredEnvelope(userId, email, hashedPassword));
    }
  }

  /** The static `RabbitMQClient.instance` slot of the process. */
  class ClientSlot {
    var instance: RabbitMQClient?

    constructor ()
      ensures instance == null
    {
      instance := null;
    }

    /** `getInstance()`: the first call creates the client and runs `connect()` on
        it; every later call returns that same client and leaves it alone. */
    method GetInstance(outcome: ConnectOutcome) returns (client: RabbitMQClient)
      requires instance != null ==> instance.Valid()
      modifies this
      ensures instance == client && client.Valid()
      ensures old(instance) != null ==> client == old(instance) && unchanged(client)
      ensures old(instance) == null ==>
                fresh(client) && client.sent == [] &&
                (outcome.Opened? ==>
                   client.connection == Some(outcome.conn) && client.channel == Some(outcome.chan) &&
                   client.listening == {outcome.conn} && client.timers == []) &&
                (!outcome.Opened? ==>
                   client.connection == None && client.channel == None &&
                   client.listening == {} && client.timers == [ReconnectDelayMs])
    {
      if instance == null {
        client := new RabbitMQClient();
        instance := client;
        client.Connect(outcome);
      } else {
        client := instance;
      }
    }
  }
}
