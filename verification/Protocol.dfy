/** Session messages between the controller and an agent. */
module Protocol {
  import opened Base
  import opened Geometry
  import opened Display
  import opened Input
  import opened ClipboardData

  datatype Session =
    | DisplayChanged(layout: DesktopLayout)
    | FocusChanged(focusEpoch: U64, target: NodeId, entryPosition: Point)
    | InputMessage(batch: InputBatch)
    | InputAcknowledged(throughSequence: U64)
    | Heartbeat(nonce: U64)
    | HeartbeatAcknowledged(nonce: U64)
    | Clipboard(control: Control)
    | Disconnect
}
