/**
 * The presence tracker of `server/game/user-manager.js`: the name each connected socket gave,
 * and the broadcast of the list of online names after every change.
 */
module Presence {
  import opened InsertionOrder
  import opened Events

  class UserManager {
    /** Socket id to player name. */
    var onlineUsers: map<string, string>
    /** The keys of `onlineUsers` in insertion order. */
    var order: seq<string>
    /** The messages sent so far. */
    var outbox: seq<Event>

    ghost predicate Valid()
      reads this`onlineUsers, this`order
    {
      Orders(order, onlineUsers)
    }

    constructor ()
      ensures Valid() && onlineUsers == map[] && order == [] && outbox == []
    {
      onlineUsers := map[];
      order := [];
      outbox := [];
    }

    /**
     * `getOnlineUsers`: one name per connected socket, in connection order, so a name given by
     * two sockets is listed twice.
     */
    function GetOnlineUsers(): (users: seq<string>)
      requires Valid()
      reads this`onlineUsers, this`order
      ensures |users| == |onlineUsers| == |order|
      ensures forall i :: 0 <= i < |users| ==> users[i] == onlineUsers[order[i]]
      ensures forall s :: s in onlineUsers ==> exists i :: 0 <= i < |users| && order[i] == s && users[i] == onlineUsers[s]
      ensures forall a, b :: a in onlineUsers && b in onlineUsers && a != b && onlineUsers[a] == onlineUsers[b] ==>
        exists i, j :: 0 <= i < j < |users| && users[i] == onlineUsers[a] && users[j] == onlineUsers[a]
    {
      ValuesOnePerKey(order, onlineUsers);
      ValuesInOrder(order, onlineUsers)
    }

    /**
     * `addUser`: records the socket's name, replacing an earlier one, leaves every other
     * socket's entry as it was, and broadcasts the new list.
     */
    method AddUser(socketId: string, playerName: string)
      requires Valid()
      modifies this
      ensures Valid()
      ensures onlineUsers == old(onlineUsers)[socketId := playerName]
      ensures order == Insert(old(order), socketId)
      ensures outbox == old(outbox) + [ToAll(OnlineUsersUpdated(GetOnlineUsers()))]
      ensures playerName in GetOnlineUsers()
    {
      InsertOrders(order, onlineUsers, socketId, playerName);
      onlineUsers := onlineUsers[socketId := playerName];
      order := Insert(order, socketId);
      var users := GetOnlineUsers();
      outbox := outbox + [ToAll(OnlineUsersUpdated(users))];
    }

    /**
     * `removeUser`: drops the socket's entry, if any, leaves every other socket's entry as it
     * was, and broadcasts the new list.
     */
    method RemoveUser(socketId: string)
      requires Valid()
      modifies this
      ensures Valid()
      ensures onlineUsers == old(onlineUsers) - {socketId}
      ensures order == Remove(old(order), socketId)
      ensures socketId !in old(onlineUsers) ==> onlineUsers == old(onlineUsers) && order == old(order)
      ensures outbox == old(outbox) + [ToAll(OnlineUsersUpdated(GetOnlineUsers()))]
    {
      RemoveOrders(order, onlineUsers, socketId);
      assert socketId !in onlineUsers ==> onlineUsers - {socketId} == onlineUsers;
      onlineUsers := onlineUsers - {socketId};
      order := Remove(order, socketId);
      var users := GetOnlineUsers();
      outbox := outbox + [ToAll(OnlineUsersUpdated(users))];
    }
  }
}
