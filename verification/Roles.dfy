/** Who speaks in a message, stored or sent. */
module Roles {
  datatype Role = System | User | Assistant
}
