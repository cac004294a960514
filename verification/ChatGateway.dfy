/** The gateway's handlers and the Redis service they call, changing their records in place. */
module ChatGateway {
  import opened Wrappers
  import opened Presence

  class ChatRedisService {
    var presence: map<Seat, SocketId>

    constructor ()
      ensures presence == map[]
    {
      presence := map[];
    }

    method SetPresence(topic: TopicId, account: Account, socket: SocketId)
      modifies this
      ensures presence == old(presence)[Seat(topic, account) := socket]
    {
      presence := presence[Seat(topic, account) := socket];
    }

    method RemovePresence(topic: TopicId, account: Account)
      modifies this
      ensures presence == old(presence) - {Seat(topic, account)}
    {
      presence := presence - {Seat(topic, account)};
    }

    /** Entries are removed one topic at a time, each only while it names the socket. */
    method RemovePresenceBySocketId(socket: SocketId, account: Account, trackedTopics: seq<TopicId>)
      returns (removedFromTopics: seq<TopicId>)
      modifies this
      ensures presence == Cleaned(old(presence), socket, account, trackedTopics)
      ensures removedFromTopics == Removed(old(presence), socket, account, trackedTopics)
    {
      removedFromTopics := [];
      for i := 0 to |trackedTopics|
        invariant presence == Cleaned(old(presence), socket, account, trackedTopics[..i])
        invariant removedFromTopics == Removed(old(presence), socket, account, trackedTopics[..i])
      {
        assert trackedTopics[..i + 1][..i] == trackedTopics[..i];
        var seat := Seat(trackedTopics[i], account);
        if seat in presence {
          if presence[seat] == socket {
            presence := presence - {seat};
            removedFromTopics := removedFromTopics + [trackedTopics[i]];
          }
        }
      }
      assert trackedTopics[..|trackedTopics|] == trackedTopics;
    }
  }

  datatype JoinReply = NotAMember | Joined(onlineAccounts: set<Account>)

  /** One offline broadcast per topic whose entry was removed, in order. */
  method EmitOfflines(broadcasts: seq<Event>, topics: seq<TopicId>, account: Account) returns (emitted: seq<Event>)
    ensures emitted == broadcasts + Offlines(topics, account)
  {
    emitted := broadcasts;
    for i := 0 to |topics|
      invariant emitted == broadcasts + Offlines(topics[..i], account)
    {
      assert topics[..i + 1][..i] == topics[..i];
      emitted := emitted + [Offline(Seat(topics[i], account))];
    }
    assert topics[..|topics|] == topics;
  }

  class Gateway {
    var socketRooms: map<SocketId, seq<TopicId>>
    var socketAccountMap: map<SocketId, Account>
    var broadcasts: seq<Event>
    const redis: ChatRedisService

    function Records(): Books
      reads this, redis
    {
      Books(socketRooms, socketAccountMap, redis.presence, broadcasts)
    }

    constructor (redis: ChatRedisService)
      requires redis.presence == map[]
      ensures Records() == NO_BOOKS && this.redis == redis
    {
      this.redis := redis;
      socketRooms, socketAccountMap, broadcasts := map[], map[], [];
    }

    /** A socket whose token does not verify is turned away and never tracked. */
    method HandleConnection(socket: SocketId, token: Option<Account>) returns (accepted: bool)
      modifies this
      ensures accepted == token.Some?
      ensures Records() == if token.Some? then Connected(old(Records()), socket, token.value) else old(Records())
    {
      accepted := token.Some?;
      if accepted {
        socketAccountMap := socketAccountMap[socket := token.value];
        socketRooms := socketRooms[socket := []];
      }
    }

    method HandleDisconnect(socket: SocketId)
      modifies this, redis
      ensures Records() == Disconnected(old(Records()), socket)
    {
      if socket in socketAccountMap && socketAccountMap[socket] != "" && socket in socketRooms {
        var account, topics := socketAccountMap[socket], socketRooms[socket];
        if topics != [] {
          var removedTopics := redis.RemovePresenceBySocketId(socket, account, topics);
          broadcasts := EmitOfflines(broadcasts, removedTopics, account);
        }
      }
      socketRooms := socketRooms - {socket};
      socketAccountMap := socketAccountMap - {socket};
    }

    method EnsureSocketTracked(socket: SocketId, account: Account)
      modifies this
      ensures Records() == Tracked(old(Records()), socket, account)
    {
      if socket !in socketAccountMap {
        socketAccountMap := socketAccountMap[socket := account];
      }
      if socket !in socketRooms {
        socketRooms := socketRooms[socket := []];
      }
    }

    /** Both halves of a join with nothing between them. */
    method HandleJoinConversation(socket: SocketId, account: Account, topic: TopicId, isMember: bool)
      returns (reply: JoinReply)
      modifies this, redis
      ensures var joined := RoomJoined(old(Records()), socket, account, topic, isMember);
              Records() == if isMember then Announced(joined, socket, account, topic) else joined
      ensures reply == if isMember then Joined(OnlineAccounts(redis.presence, topic)) else NotAMember
      ensures reply.Joined? ==> account in reply.onlineAccounts
      ensures reply.Joined? ==> forall x :: x in reply.onlineAccounts <==> Seat(topic, x) in redis.presence
    {
      EnsureSocketTracked(socket, account);
      if !isMember {
        return NotAMember;
      }
      socketRooms := socketRooms[socket := AddTopic(socketRooms[socket], topic)];
      redis.SetPresence(topic, account, socket);
      broadcasts := broadcasts + [Online(Seat(topic, account))];
      assert Seat(topic, account) in redis.presence;
      reply := Joined(OnlineAccounts(redis.presence, topic));
    }

    method HandleLeaveConversation(socket: SocketId, account: Account, topic: TopicId)
      modifies this, redis
      ensures Records() == LeftRoom(old(Records()), socket, account, topic)
    {
      if socket in socketRooms {
        socketRooms := socketRooms[socket := DropTopic(socketRooms[socket], topic)];
      }
      redis.RemovePresence(topic, account);
      broadcasts := broadcasts + [Offline(Seat(topic, account))];
    }
  }
}
