/** The identity of a user (src/types.h). */
module Types {
  type DiscordID = nat
}
