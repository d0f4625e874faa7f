/**
 * The two field renamings at the end of packing.service.ts: the request's Portuguese
 * records into the engine's Order, and a PackedOrder into the response record.
 */
module Mappers {
  import opened Wrappers
  import opened OrderTypes
  import opened DtoTypes
  import opened Packing
  import opened PackingProperties

  function MapProduto(produto: ProdutoDto): Product
  {
    Product(produto.produto_id,
            Dimensions(produto.dimensoes.altura, produto.dimensoes.largura, produto.dimensoes.comprimento))
  }

  /** `mapPedidoToOrder`. */
  function MapPedidoToOrder(pedidoDto: PedidoDto): (order: Order)
    ensures order.order_id == pedidoDto.pedido_id
    ensures |order.products| == |pedidoDto.produtos|
    ensures ProductIds(order.products) == seq(|pedidoDto.produtos|, i requires 0 <= i < |pedidoDto.produtos| =>
                                                pedidoDto.produtos[i].produto_id)
    ensures forall i :: 0 <= i < |order.products| ==>
              order.products[i].dimensions ==
                Dimensions(pedidoDto.produtos[i].dimensoes.altura, pedidoDto.produtos[i].dimensoes.largura,
                           pedidoDto.produtos[i].dimensoes.comprimento)
  {
    Order(pedidoDto.pedido_id,
          seq(|pedidoDto.produtos|, i requires 0 <= i < |pedidoDto.produtos| => MapProduto(pedidoDto.produtos[i])))
  }

  /** The renaming read backwards, from the engine's Order to the request record. */
  function OrderToPedido(order: Order): PedidoDto
  {
    PedidoDto(order.order_id,
              seq(|order.products| , i requires 0 <= i < |order.products| =>
                var p := order.products[i];
                ProdutoDto(p.product_id, DimensoesDto(p.dimensions.height, p.dimensions.width, p.dimensions.length))))
  }

  /** The mapping loses nothing: reading it backwards gives the request record back. */
  lemma MapPedidoToOrderRoundTrip(pedidoDto: PedidoDto)
    ensures OrderToPedido(MapPedidoToOrder(pedidoDto)) == pedidoDto
  {
    var back := OrderToPedido(MapPedidoToOrder(pedidoDto)).produtos;
    assert |back| == |pedidoDto.produtos|;
    forall i | 0 <= i < |back|
      ensures back[i] == pedidoDto.produtos[i]
    {
    }
  }

  /** and it is onto: every Order is the mapping of some request record. */
  lemma MapPedidoToOrderOnto(order: Order)
    ensures MapPedidoToOrder(OrderToPedido(order)) == order
  {
    var back := MapPedidoToOrder(OrderToPedido(order)).products;
    assert |back| == |order.products|;
    forall i | 0 <= i < |back|
      ensures back[i] == order.products[i]
    {
    }
  }

  /**
   * The conditional spread `...(box.observation && { observacao: box.observation })`:
   * the field is emitted only for a present observation that is not the empty string,
   * which is falsy.
   */
  function MapObservation(observation: Option<string>): (observacao: Option<string>)
    ensures observacao.Some? <==> observation.Some? && observation.value != ""
    ensures observacao.Some? ==> observacao == observation
  {
    if observation.Some? && observation.value != "" then observation else None
  }

  function MapBox(box: PackedBox): CaixaDto
  {
    CaixaDto(box.box_id, box.products, MapObservation(box.observation))
  }

  /** `mapPackedOrderToPedidoEmbalagem`. */
  function MapPackedOrderToPedidoEmbalagem(packedOrder: PackedOrder): (dto: PedidoEmbalagemDto)
    ensures dto.pedido_id == packedOrder.order_id
    ensures |dto.caixas| == |packedOrder.boxes|
    ensures forall i :: 0 <= i < |dto.caixas| ==>
              && dto.caixas[i].caixa_id == packedOrder.boxes[i].box_id
              && dto.caixas[i].produtos == packedOrder.boxes[i].products
              && (dto.caixas[i].observacao.Some? <==>
                    packedOrder.boxes[i].observation.Some? && packedOrder.boxes[i].observation.value != "")
              && dto.caixas[i].observacao == MapObservation(packedOrder.boxes[i].observation)
  {
    PedidoEmbalagemDto(packedOrder.order_id,
                       seq(|packedOrder.boxes|, i requires 0 <= i < |packedOrder.boxes| => MapBox(packedOrder.boxes[i])))
  }

  /**
   * On the engine's own output the response record carries observacao exactly on the
   * box without an id, with the fixed message.
   */
  lemma ResponseObservationOnlyOnSentinel(order: Order)
    ensures var dto := MapPackedOrderToPedidoEmbalagem(PackedOrderOf(order));
            forall i :: 0 <= i < |dto.caixas| ==>
              dto.caixas[i].observacao == if dto.caixas[i].caixa_id.None? then Some(NoFitObservation) else None
  {
    PackedOrderGuarantees(order);
  }
}
