/** The parts of the Prometheus client library the collector hands its results to. */
module Prometheus {

  /** How a sample is to be interpreted. */
  datatype ValueType = CounterValue | GaugeValue | UntypedValue

  /** A metric descriptor: fully qualified name, help text and the names of its variable labels. */
  datatype Desc = Desc(fqName: string, help: string, variableLabels: seq<string>)

  /** One emitted sample: its descriptor, kind, value and label values (in the descriptor's label order). */
  datatype Metric = Metric(desc: Desc, valueType: ValueType, value: real, labelValues: seq<string>)

  /** Joins the three name parts with underscores; every call site passes three non-empty parts. */
  function BuildFQName(namespace: string, subsystem: string, name: string): string
  {
    namespace + "_" + subsystem + "_" + name
  }

  /** A constant sample; the library panics when the label values do not match the descriptor's label names. */
  function MustNewConstMetric(desc: Desc, valueType: ValueType, value: real, labelValues: seq<string>): Metric
    requires |labelValues| == |desc.variableLabels|
  {
    Metric(desc, valueType, value, labelValues)
  }
}
