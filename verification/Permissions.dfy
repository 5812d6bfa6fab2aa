/** The bot permission levels of a channel and the pause each one imposes between messages. */
module Permissions {
  const READ := 0
  const WRITE := 1
  const VIP := 2
  const MODERATOR := 3
  const BOT := 4

  const DEFAULT_MESSAGE_INTERVAL := 1250

  /** Milliseconds between two messages. The type is a plain Go int, so the unknown levels are values too. */
  function MessageCooldown(permission: int): (ms: int)
    ensures 50 <= ms <= DEFAULT_MESSAGE_INTERVAL
  {
    if permission == READ || permission == WRITE then DEFAULT_MESSAGE_INTERVAL
    else if permission == VIP then 250
    else if permission == MODERATOR || permission == BOT then 50
    else DEFAULT_MESSAGE_INTERVAL
  }
}
