/** The server's room rules (`roomUtils`): random six-letter room ids, a
    bounded search for an unused one, and create, join, leave and
    membership checks over a two-person participants list. The Mongo
    collection is an in-memory map from room id to room; `Math.random` is
    an input stream of draws in 0..25. */
module RoomUtils {
  import opened Wrappers

  type RoomId = string
  type UserId = string

  /** `Math.floor(Math.random() * 26)`. */
  type Draw = d: int | 0 <= d < 26

  const RoomIdLength: nat := 6
  /** The default of `maxAttempts`. */
  const MaxAttempts: nat := 5

  const RoomNotFound: string := "Room not found"
  const RoomIsFull: string := "Room is full"
  const FailedToGenerate: string := "Failed to generate unique room ID"
  const FailedToCreate: string := "Failed to create room"
  const LeftRoom: string := "Left Room Successfully"

  datatype Room = Room(roomId: RoomId, host: UserId, participants: seq<UserId>)

  /** What create and join resolve to. */
  datatype RoomInfo = RoomInfo(roomId: RoomId, host: UserId)

  /** What leave resolves to. */
  datatype LeaveInfo = LeaveInfo(message: string, countRemainingParticipants: nat)

  // ---------------------------------------------------------------------
  // Room ids

  /** `generateRoomId`: six letters `97 + draw`. */
  function GenerateRoomId(draws: seq<Draw>): (id: RoomId)
    requires |draws| == RoomIdLength
    ensures |id| == RoomIdLength && forall i :: 0 <= i < |id| ==> 'a' <= id[i] <= 'z'
  {
    seq(RoomIdLength, i requires 0 <= i < RoomIdLength => (97 + draws[i] as int) as char)
  }

  predicate IsRoomId(id: string)
  {
    |id| == RoomIdLength && forall i :: 0 <= i < |id| ==> 'a' <= id[i] <= 'z'
  }

  /** The draws that spell a room id. */
  function DrawsOf(id: RoomId): (draws: seq<Draw>)
    requires IsRoomId(id)
    ensures |draws| == RoomIdLength
  {
    seq(RoomIdLength, i requires 0 <= i < RoomIdLength => id[i] as int - 97)
  }

  /** Ids and draws correspond one to one: every six-letter lower-case id
      is generated by exactly one draw sequence. */
  lemma GenerateRoomIdBijective(draws: seq<Draw>, id: RoomId)
    requires |draws| == RoomIdLength
    ensures DrawsOf(GenerateRoomId(draws)) == draws
    ensures IsRoomId(id) ==> GenerateRoomId(DrawsOf(id)) == id
  {
  }

  /** The id of attempt `a` of `getUniqueRoomId`: each attempt consumes the
      next six draws. */
  function Candidate(random: nat -> Draw, a: nat): (id: RoomId)
    ensures IsRoomId(id)
  {
    GenerateRoomId(seq(RoomIdLength, i requires 0 <= i < RoomIdLength => random(RoomIdLength * a + i)))
  }

  /** `getUniqueRoomId`: try fresh ids until one is not taken, at most
      `maxAttempts` times. */
  method GetUniqueRoomId(taken: set<RoomId>, random: nat -> Draw, maxAttempts: int)
    returns (r: Result<RoomId, string>)
    ensures r.Ok? ==> r.value !in taken && IsRoomId(r.value)
    ensures r.Ok? ==> exists a :: (0 <= a < maxAttempts && r.value == Candidate(random, a)
      && forall b :: 0 <= b < a ==> Candidate(random, b) in taken)
    ensures r.Err? <==> forall a :: 0 <= a < maxAttempts ==> Candidate(random, a) in taken
    ensures r.Err? ==> r.error == FailedToGenerate
  {
    var attempts: nat := 0;
    while attempts < maxAttempts
      invariant attempts == 0 || attempts <= maxAttempts
      invariant forall b :: 0 <= b < attempts ==> Candidate(random, b) in taken
      decreases maxAttempts - attempts
    {
      var draws := seq(RoomIdLength, i requires 0 <= i < RoomIdLength => random(RoomIdLength * attempts + i));
      var roomId := GenerateRoomId(draws);
      assert roomId == Candidate(random, attempts);
      if roomId !in taken {
        return Ok(roomId);
      }
      attempts := attempts + 1;
    }
    return Err(FailedToGenerate);
  }

  // ---------------------------------------------------------------------
  // Room rules

  /** The participant checks of `joinRoom` on an existing room: refuse a
      room with more than one participant, accept an existing member
      unchanged, otherwise append the user. */
  function JoinParticipants(room: Room, userId: UserId): Result<Room, string>
  {
    if |room.participants| > 1 then Err(RoomIsFull)
    else if userId in room.participants then Ok(room)
    else Ok(room.(participants := room.participants + [userId]))
  }

  /** A join fails exactly on a room that already has two or more people;
      a successful join leaves the user a member, the earlier participants
      first and in order, at most two in all, and nothing else changed. */
  lemma JoinOutcome(room: Room, userId: UserId)
    ensures JoinParticipants(room, userId).Err? <==> |room.participants| > 1
    ensures JoinParticipants(room, userId).Err? ==> JoinParticipants(room, userId).error == RoomIsFull
    ensures var j := JoinParticipants(room, userId);
      j.Ok? ==>
        && userId in j.value.participants
        && room.participants <= j.value.participants
        && |j.value.participants| <= 2
        && j.value.roomId == room.roomId && j.value.host == room.host
        && (userId in room.participants <==> j.value == room)
  {
  }

  /** The full check comes first: a member of a full room is refused too. */
  lemma MemberOfFullRoomRefused(room: Room, userId: UserId)
    requires |room.participants| == 2 && userId in room.participants
    ensures JoinParticipants(room, userId) == Err(RoomIsFull)
  {
  }

  /** So a user who joined as the second participant cannot join again. */
  lemma SecondJoinerCannotRejoin(room: Room, userId: UserId)
    requires |room.participants| == 1 && userId !in room.participants
    ensures JoinParticipants(room, userId).Ok?
    ensures JoinParticipants(JoinParticipants(room, userId).value, userId) == Err(RoomIsFull)
  {
  }

  /** `participants.filter(id => id !== userId)`. */
  function Without(participants: seq<UserId>, userId: UserId): (r: seq<UserId>)
    ensures |r| <= |participants|
    decreases |participants|
  {
    if participants == [] then []
    else if participants[0] == userId then Without(participants[1..], userId)
    else [participants[0]] + Without(participants[1..], userId)
  }

  /** The filter drops every occurrence of the user and keeps every other
      entry with its multiplicity. */
  lemma {:induction false} WithoutCounts(participants: seq<UserId>, userId: UserId)
    ensures multiset(Without(participants, userId)) == multiset(participants)[userId := 0]
    decreases |participants|
  {
    if participants != [] {
      WithoutCounts(participants[1..], userId);
      assert participants == [participants[0]] + participants[1..];
    }
  }

  /** The filter keeps order: it distributes over concatenation. */
  lemma {:induction false} WithoutAppend(a: seq<UserId>, b: seq<UserId>, userId: UserId)
    ensures Without(a + b, userId) == Without(a, userId) + Without(b, userId)
    decreases |a|
  {
    if a != [] {
      WithoutAppend(a[1..], b, userId);
      assert (a + b)[1..] == a[1..] + b;
    } else {
      assert a + b == b;
    }
  }

  /** Filtering twice is filtering once, and a non-member leaves the list
      as it was. */
  lemma {:induction false} WithoutIdempotent(participants: seq<UserId>, userId: UserId)
    ensures Without(Without(participants, userId), userId) == Without(participants, userId)
    ensures userId !in participants ==> Without(participants, userId) == participants
    decreases |participants|
  {
    if participants != [] {
      WithoutIdempotent(participants[1..], userId);
      assert participants == [participants[0]] + participants[1..];
    }
  }

  /** `checkUserInRoom` on the store. */
  function CheckUserInRoom(rooms: map<RoomId, Room>, roomId: RoomId, userId: UserId): (r: Result<bool, string>)
  {
    if roomId !in rooms then Err(RoomNotFound) else Ok(userId in rooms[roomId].participants)
  }

  /** A joined user checks in; a user who left checks out, whether the
      room survives or not. */
  lemma CheckAfterJoinAndLeave(rooms: map<RoomId, Room>, roomId: RoomId, userId: UserId)
    requires roomId in rooms
    ensures var j := JoinParticipants(rooms[roomId], userId);
      j.Ok? ==> CheckUserInRoom(rooms[roomId := j.value], roomId, userId) == Ok(true)
    ensures var rest := Without(rooms[roomId].participants, userId);
      && CheckUserInRoom(rooms - {roomId}, roomId, userId) == Err(RoomNotFound)
      && CheckUserInRoom(rooms[roomId := rooms[roomId].(participants := rest)], roomId, userId) == Ok(false)
  {
    WithoutCounts(rooms[roomId].participants, userId);
    var rest := Without(rooms[roomId].participants, userId);
    assert multiset(rest)[userId] == 0;
  }

  /** Every stored room is filed under its own id and has one or two
      participants. */
  ghost predicate ValidRooms(rooms: map<RoomId, Room>)
  {
    forall id :: id in rooms ==> rooms[id].roomId == id && 1 <= |rooms[id].participants| <= 2
  }

  // ---------------------------------------------------------------------
  // The store

  class RoomStore {
    /** The `Room` collection, by `roomId`. */
    var rooms: map<RoomId, Room>

    ghost predicate Valid()
      reads this
    {
      ValidRooms(rooms)
    }

    constructor ()
      ensures Valid() && rooms == map[]
    {
      rooms := map[];
    }

    /** `createRoom`: a fresh id, the user as host and sole participant;
      any failure is reported as "Failed to create room". */
    method CreateRoom(userId: UserId, random: nat -> Draw) returns (r: Result<RoomInfo, string>)
      requires Valid()
      modifies this
      ensures Valid()
      ensures r.Err? ==> (r.error == FailedToCreate && rooms == old(rooms)
        && forall a :: 0 <= a < MaxAttempts ==> Candidate(random, a) in old(rooms))
      ensures r.Ok? ==> (r.value.roomId !in old(rooms) && r.value.host == userId && IsRoomId(r.value.roomId)
        && rooms == old(rooms)[r.value.roomId := Room(r.value.roomId, userId, [userId])])
      ensures r.Err? <==> forall a :: 0 <= a < MaxAttempts ==> Candidate(random, a) in old(rooms)
      ensures r.Ok? ==> exists a :: (0 <= a < MaxAttempts && r.value.roomId == Candidate(random, a)
        && forall b :: 0 <= b < a ==> Candidate(random, b) in old(rooms))
    {
      var id := GetUniqueRoomId(rooms.Keys, random, MaxAttempts);
      if id.Err? {
        return Err(FailedToCreate);
      }
      var room := Room(id.value, userId, [userId]);
      rooms := rooms[id.value := room];
      return Ok(RoomInfo(room.roomId, room.host));
    }

    /** `joinRoom`: "Room not found" for a missing room, then the
      participant checks; an accepted new user is pushed and saved. */
    method JoinRoom(roomId: RoomId, userId: UserId) returns (r: Result<RoomInfo, string>)
      requires Valid()
      modifies this
      ensures Valid()
      ensures roomId !in old(rooms) ==> r == Err(RoomNotFound) && rooms == old(rooms)
      ensures roomId in old(rooms) ==>
        var j := JoinParticipants(old(rooms)[roomId], userId);
        && (j.Err? ==> r == Err(j.error) && rooms == old(rooms))
        && (j.Ok? ==> r == Ok(RoomInfo(roomId, j.value.host)) && rooms == old(rooms)[roomId := j.value])
    {
      if roomId !in rooms {
        return Err(RoomNotFound);
      }
      var room := rooms[roomId];
      if |room.participants| > 1 {
        return Err(RoomIsFull);
      }
      if userId in room.participants {
        return Ok(RoomInfo(room.roomId, room.host));
      }
      room := room.(participants := room.participants + [userId]);
      rooms := rooms[roomId := room];
      return Ok(RoomInfo(room.roomId, room.host));
    }

    /** `leaveRoom`: drop every occurrence of the user; delete the room when
      nobody remains, otherwise save it; report the remaining count. */
    method LeaveRoom(roomId: RoomId, userId: UserId) returns (r: Result<LeaveInfo, string>)
      requires Valid()
      modifies this
      ensures Valid()
      ensures roomId !in old(rooms) ==> r == Err(RoomNotFound) && rooms == old(rooms)
      ensures roomId in old(rooms) ==>
        var rest := Without(old(rooms)[roomId].participants, userId);
        && r == Ok(LeaveInfo(LeftRoom, |rest|))
        && (rest == [] ==> rooms == old(rooms) - {roomId})
        && (rest != [] ==> rooms == old(rooms)[roomId := old(rooms)[roomId].(participants := rest)])
    {
      if roomId !in rooms {
        return Err(RoomNotFound);
      }
      var room := rooms[roomId];
      room := room.(participants := Without(room.participants, userId));
      if |room.participants| == 0 {
        rooms := rooms - {roomId};
      } else {
        rooms := rooms[roomId := room];
      }
      return Ok(LeaveInfo(LeftRoom, |room.participants|));
    }
  }
}
