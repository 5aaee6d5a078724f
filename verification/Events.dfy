/** A value that may be absent: the nullable columns and optional fields of the program. */
module Options {
  datatype Option<+T> = None | Some(value: T)
}

/** The typed events of app/core/events.py, as far as persistence looks at them. */
module Events {
  import opened Options

  datatype Kind = ShipmentKind | InvoiceKind

  datatype ShipmentState = PickedUp | InTransit | OutForDelivery | Delivered

  datatype InvoiceState = Issued | Paid | Voided | Refunded

  datatype CanonicalState =
    | OfShipment(shipment: ShipmentState)
    | OfInvoice(invoice: InvoiceState)
    | UnclassifiedState

  /** `extras` stands for the variant-specific fields, which persistence copies without looking at them. */
  datatype Payload =
    | ShipmentPayload(shipmentState: ShipmentState, transportDocNumber: string, milestone: string, extras: string)
    | InvoicePayload(invoiceState: InvoiceState, documentReference: string, milestone: string, extras: string)
    | UnclassifiedPayload(reason: string, extras: string)
  {
    /** The entity table the payload goes to, None for an unclassified one. */
    function EntityKind(): Option<Kind> {
      match this
      case ShipmentPayload(_, _, _, _) => Some(ShipmentKind)
      case InvoicePayload(_, _, _, _) => Some(InvoiceKind)
      case UnclassifiedPayload(_, _) => None
    }

    function State(): CanonicalState {
      match this
      case ShipmentPayload(s, _, _, _) => OfShipment(s)
      case InvoicePayload(s, _, _, _) => OfInvoice(s)
      case UnclassifiedPayload(_, _) => UnclassifiedState
    }

    function ExternalRef(): Option<string> {
      match this
      case ShipmentPayload(_, ref, _, _) => Some(ref)
      case InvoicePayload(_, ref, _, _) => Some(ref)
      case UnclassifiedPayload(_, _) => None
    }

    function VendorMilestone(): Option<string> {
      match this
      case ShipmentPayload(_, _, m, _) => Some(m)
      case InvoicePayload(_, _, m, _) => Some(m)
      case UnclassifiedPayload(_, _) => None
    }
  }

  /** A datetime as the classifier returns it: wall-clock microseconds, with or without a UTC offset. */
  datatype Timestamp = Naive(wall: int) | Aware(wall: int, offset: int)

  /** The instant in UTC: a datetime without an offset is read as UTC. */
  function EnsureUtc(t: Timestamp): int {
    match t
    case Naive(wall) => wall
    case Aware(wall, offset) => wall - offset
  }

  /** `vendor` is the classifier's own reading, which persistence ignores. */
  datatype NormalizedEvent = NormalizedEvent(vendor: string, eventAt: Timestamp, payload: Payload)
}
