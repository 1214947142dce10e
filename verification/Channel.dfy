/** The object of irono/net/Channel.h that both pollers register: a descriptor, the events of interest,
    the events reported, and an index that belongs to the poller. */
module Channels {
  datatype PollEvent = In | Pri | Out
  type Mask = set<PollEvent>

  const READ_EVENT: Mask := {In, Pri}
  const WRITE_EVENT: Mask := {Out}

  /** The index of a channel that no poller knows. */
  const NEW := -1

  class Channel {
    const fd: int
    var events: Mask
    var revents: int
    var index: int

    constructor (fd: int)
      ensures this.fd == fd && events == {} && revents == 0 && index == NEW
    {
      this.fd := fd;
      events, revents, index := {}, 0, NEW;
    }
  }
}
