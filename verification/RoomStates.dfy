/** The status of a room, which the room and the booking services both write. */
module RoomStates {

  datatype RoomStatus = Available | Occupied | Maintenance | OutOfService

  function RoomStatusText(s: RoomStatus): string {
    match s
    case Available => "AVAILABLE"
    case Occupied => "OCCUPIED"
    case Maintenance => "MAINTENANCE"
    case OutOfService => "OUT_OF_SERVICE"
  }
}
